/** Publication of one staged unit into a shared output directory (cli/promotion.py). */
module Promotion {
  import opened Text
  import opened Files
  import opened PromotionPlan

  datatype Policy = Fail | Skip | Rename | Overwrite

  datatype Error =
    | UnexpectedOutput(source: Path)  // the plan refuses a staged file
    | Collision(path: Path)           // FileExistsError
    | SkippedFor(path: Path)          // PromotionSkipped
    | Fault                           // any other failing file operation
    | CleanupFault                    // a backup could not be removed after publication

  datatype Outcome = Published(paths: seq<Path>) | Raised(error: Error)

  // ---- the state of a transaction --------------------------------------------

  function Sources(moved: seq<Entry>): set<Path> {
    set e | e in moved :: e.source
  }

  function Targets(moved: seq<Entry>): set<Path> {
    set e | e in moved :: e.target
  }

  function OutDirs(entries: seq<Entry>): set<string> {
    set e | e in entries :: e.target.dir
  }

  /** What a walk of a private staging directory delivers: existing files, each paired
      with the path of the same name under the output directory. */
  ghost predicate StagedUnit(entries: seq<Entry>, files: map<Path, Bytes>, world: set<Path>) {
    && SameNames(entries)
    && (forall e :: e in entries ==> e.source in files && e.source !in world)
    && (forall e :: e in entries ==> e.source.dir !in OutDirs(entries))
    && (forall i, j :: 0 <= i < j < |entries| ==> entries[i].source != entries[j].source)
    && (forall i, j :: 0 <= i < j < |entries| ==> entries[i].target != entries[j].target)
  }

  /** `files` is `base` with every file of `moved` taken from its source to its target. */
  ghost predicate Image(files: map<Path, Bytes>, base: map<Path, Bytes>, moved: seq<Entry>) {
    && (forall k :: 0 <= k < |moved| ==>
          && moved[k].source in base && moved[k].source !in files
          && moved[k].target in files && files[moved[k].target] == base[moved[k].source])
    && (forall p :: p in base && p !in Sources(moved) ==> p in files && files[p] == base[p])
    && (forall p :: p in files ==> p in base || p in Targets(moved))
  }

  ghost predicate Moves(moved: seq<Entry>, entries: seq<Entry>) {
    && |moved| <= |entries|
    && (forall k :: 0 <= k < |moved| ==>
          moved[k].source == entries[k].source && moved[k].target.dir in OutDirs(entries))
    && (forall i, j :: 0 <= i < j < |moved| ==> moved[i].target != moved[j].target)
  }

  /** The transaction invariant, on the files other writers did not create: they are those
      at the start, except that the first staged files stand at their new paths. */
  ghost predicate Held(ours: map<Path, Bytes>, world: set<Path>, entries: seq<Entry>, base: map<Path, Bytes>,
                       moved: seq<Entry>)
  {
    && StagedUnit(entries, base, world)
    && Moves(moved, entries)
    && (forall e :: e in moved ==> e.target !in base)
    && Image(ours, base, moved)
  }

  ghost predicate Holds(fs: FileSystem, entries: seq<Entry>, base: map<Path, Bytes>, moved: seq<Entry>)
    reads fs
  {
    fs.Valid() && Held(fs.ours, fs.world, entries, base, moved)
  }

  lemma ImageOfNothing(files: map<Path, Bytes>, base: map<Path, Bytes>)
    requires Image(files, base, [])
    ensures files == base
  {
    assert forall p :: p in base ==> p !in Sources([]);
    assert forall p :: p in files ==> p in base;
    assert files.Keys == base.Keys;
  }

  lemma PathsExtend(moved: seq<Entry>, e: Entry)
    ensures Sources(moved + [e]) == Sources(moved) + {e.source}
    ensures Targets(moved + [e]) == Targets(moved) + {e.target}
  {
    assert forall d :: d in moved + [e] <==> d in moved || d == e;
  }

  lemma PathsOf(moved: seq<Entry>)
    ensures forall k :: 0 <= k < |moved| ==> moved[k].source in Sources(moved) && moved[k].target in Targets(moved)
  {
    forall k | 0 <= k < |moved| ensures moved[k] in moved {
    }
  }

  lemma ImageMoves(files: map<Path, Bytes>, base: map<Path, Bytes>, moved: seq<Entry>, e: Entry)
    requires Image(files, base, moved)
    requires e.source in base && e.source !in Sources(moved) && e.target !in files && e.target !in Sources(moved)
    requires e.source != e.target
    requires e.source !in Targets(moved)
    ensures e.target !in base
    ensures Image((files - {e.source})[e.target := files[e.source]], base, moved + [e])
  {
    hide Sources, Targets;
    PathsExtend(moved, e);
    PathsOf(moved);
  }

  lemma ImageUndone(files: map<Path, Bytes>, base: map<Path, Bytes>, rest: seq<Entry>, e: Entry, all: seq<Entry>)
    requires Image(files, base, all) && e in all && forall d :: d in all <==> d in rest || d == e
    requires e.target !in base && e.target !in Targets(rest) && e.source !in Sources(rest)
    requires e.source !in Targets(rest)
    ensures e.source !in files && e.target in files
    ensures Image(FileSystem.Relocated(files, e.target, e.source), base, rest)
  {
    assert forall p :: p in Sources(all) <==> p in Sources(rest) || p == e.source;
    assert forall p :: p in Targets(all) <==> p in Targets(rest) || p == e.target;
    forall d | d in all ensures d.source !in files && d.target in files && files[d.target] == base[d.source] {
      var k :| 0 <= k < |all| && all[k] == d;
    }
    assert forall k :: 0 <= k < |rest| ==> rest[k] in rest;
  }

  lemma MovedIndex(d: Entry, moved: seq<Entry>, entries: seq<Entry>) returns (m: nat)
    requires Moves(moved, entries) && d in moved
    ensures m < |moved| && moved[m] == d && d.source == entries[m].source && entries[m] in entries
    ensures d.target.dir in OutDirs(entries)
  {
    m :| 0 <= m < |moved| && moved[m] == d;
    assert entries[m] in entries;
  }

  lemma MovedPathsDiffer(moved: seq<Entry>, entries: seq<Entry>, base: map<Path, Bytes>, world: set<Path>)
    requires StagedUnit(entries, base, world) && Moves(moved, entries)
    ensures Sources(moved) !! Targets(moved) && Sources(moved) !! world
    ensures forall e :: e in entries ==> e.source !in Targets(moved)
  {
    forall d | d in moved ensures d.source !in world && d.source.dir !in OutDirs(entries) {
      var m := MovedIndex(d, moved, entries);
    }
    forall d | d in moved ensures d.target.dir in OutDirs(entries) {
      var m := MovedIndex(d, moved, entries);
    }
  }

  lemma NextIsUnmoved(moved: seq<Entry>, entries: seq<Entry>, base: map<Path, Bytes>, world: set<Path>)
    requires StagedUnit(entries, base, world) && Moves(moved, entries) && |moved| < |entries|
    ensures entries[|moved|].source !in Sources(moved)
  {
    forall d | d in moved ensures d.source != entries[|moved|].source {
      var m := MovedIndex(d, moved, entries);
    }
  }

  lemma StagedSource(entries: seq<Entry>, base: map<Path, Bytes>, world: set<Path>, e: Entry, target: Path)
    requires StagedUnit(entries, base, world) && e in entries
    ensures e.source in base && e.source !in world
    ensures target.dir in OutDirs(entries) ==> e.source.dir != target.dir && e.source != target
  {
  }

  lemma NotASource(moved: seq<Entry>, entries: seq<Entry>, base: map<Path, Bytes>, world: set<Path>, target: Path)
    requires StagedUnit(entries, base, world) && Moves(moved, entries) && target.dir in OutDirs(entries)
    ensures target !in Sources(moved)
  {
    forall d | d in moved ensures d.source != target {
      var m := MovedIndex(d, moved, entries);
    }
  }

  lemma UnmovedStays(ours: map<Path, Bytes>, base: map<Path, Bytes>, moved: seq<Entry>, p: Path)
    requires Image(ours, base, moved) && p in base && p !in Sources(moved)
    ensures p in ours && ours[p] == base[p]
  {
  }

  lemma HeldMoves(ours: map<Path, Bytes>, world: set<Path>, entries: seq<Entry>, base: map<Path, Bytes>,
                  moved: seq<Entry>, target: Path)
    requires Held(ours, world, entries, base, moved)
    requires |moved| < |entries| && target !in ours && target.dir in OutDirs(entries)
    ensures var source := entries[|moved|].source;
            && source in ours && source != target && source.dir != target.dir && source !in world
            && Held(FileSystem.Relocated(ours, source, target), world, entries, base, moved + [Entry(source, target)])
  {
    hide StagedUnit, Image, Sources, Targets;
    var e := Entry(entries[|moved|].source, target);
    StagedSource(entries, base, world, entries[|moved|], target);
    MovedPathsDiffer(moved, entries, base, world);
    NextIsUnmoved(moved, entries, base, world);
    NotASource(moved, entries, base, world, target);
    UnmovedStays(ours, base, moved, e.source);
    ImageMoves(ours, base, moved, e);
    MovesExtend(moved, entries, e, ours, base);
    assert forall d :: d in moved + [e] ==> d in moved || d == e;
  }

  lemma MovesExtend(moved: seq<Entry>, entries: seq<Entry>, e: Entry, ours: map<Path, Bytes>, base: map<Path, Bytes>)
    requires Moves(moved, entries) && |moved| < |entries| && e.source == entries[|moved|].source
    requires e.target.dir in OutDirs(entries) && e.target !in ours
    requires Image(ours, base, moved)
    ensures Moves(moved + [e], entries)
  {
  }

  lemma MovesShrink(moved: seq<Entry>, entries: seq<Entry>)
    requires Moves(moved, entries) && moved != []
    ensures Moves(moved[..|moved| - 1], entries)
    ensures |moved| <= |entries|
    ensures moved[|moved| - 1].source == entries[|moved| - 1].source && entries[|moved| - 1] in entries
    ensures moved[|moved| - 1].target.dir in OutDirs(entries)
    ensures moved[|moved| - 1].target !in Targets(moved[..|moved| - 1])
  {
  }

  lemma HeldUndone(ours: map<Path, Bytes>, world: set<Path>, entries: seq<Entry>, base: map<Path, Bytes>,
                   moved: seq<Entry>)
    requires Held(ours, world, entries, base, moved) && moved != []
    ensures var e := moved[|moved| - 1];
            && e.target in ours && e.source != e.target && e.source !in world
            && Held(FileSystem.Relocated(ours, e.target, e.source), world, entries, base, moved[..|moved| - 1])
  {
    hide StagedUnit, Image, Moves, Sources, Targets;
    var rest, e := moved[..|moved| - 1], moved[|moved| - 1];
    assert moved == rest + [e];
    MovesShrink(moved, entries);
    assert |rest| < |entries|;
    StagedSource(entries, base, world, entries[|rest|], e.target);
    MovedPathsDiffer(rest, entries, base, world);
    NextIsUnmoved(rest, entries, base, world);
    assert forall d :: d in moved <==> d in rest || d == e;
    ImageUndone(ours, base, rest, e, moved);
  }

  // ---- looking at paths ------------------------------------------------------

  /** The first of `paths` that exists, looked at one after the other. */
  method FirstExisting(fs: FileSystem, paths: seq<Path>) returns (hit: Option<Path>)
    requires fs.Valid()
    modifies fs
    ensures fs.OthersOnly()
    ensures hit.Some? ==> hit.value in paths && hit.value in fs.files
    ensures hit.Some? ==> exists k ::
              0 <= k < |paths| && paths[k] == hit.value && forall p :: p in paths[..k] ==> p !in old(fs.files)
    ensures hit.None? ==> forall p :: p in paths ==> p !in old(fs.files)
  {
    for k := 0 to |paths|
      invariant fs.OthersOnly()
      invariant forall p :: p in paths[..k] ==> p !in old(fs.files)
    {
      var present := fs.Lexists(paths[k]);
      if present {
        return Some(paths[k]);
      }
    }
    hit := None;
  }

  // ---- names that are still free ---------------------------------------------

  function Numbered(path: Path, index: nat): (r: Path)
    ensures r.dir == path.dir
    ensures |r.name| <= |path.name| + index + 2
  {
    var (root, extension) := SplitExt(path.name);
    DigitsShort(index);
    Path(path.dir, root + "_" + Digits(index) + extension)
  }

  /** The number goes before the extension, which stays as it was. */
  lemma NumberedKeepsExtension(path: Path, index: nat)
    ensures SplitExt(Numbered(path, index).name) ==
              (SplitExt(path.name).0 + "_" + Digits(index), SplitExt(path.name).1)
  {
    hide Digits;
    var (root, extension) := SplitExt(path.name);
    var stem := root + "_" + Digits(index);
    assert stem[|root|] == '_' && stem + "" == stem;
    if extension == "" {
      LeadingDotsStay(path.name, stem);
    }
    SplitExtOf(stem, extension);
  }

  lemma LeadingDotsStay(name: string, longer: string)
    requires SplitExt(name).1 == "" && name <= longer
    requires forall k :: |name| <= k < |longer| ==> longer[k] != '.'
    ensures OnlyLeadingDots(longer)
  {
    NoDotAfterLast(name);
    assert forall k :: 0 <= k < |name| ==> longer[k] == name[k];
  }

  lemma NumberedInjective(path: Path, i: nat, j: nat)
    requires Numbered(path, i) == Numbered(path, j)
    ensures i == j
  {
    var (root, extension) := SplitExt(path.name);
    var w, n := Numbered(path, i).name, |root| + 1;
    assert w == root + "_" + Digits(j) + extension;
    assert Digits(i) == w[n..|w| - |extension|] == Digits(j);
    DigitsInjective(i, j);
  }

  /** A per-file fallback name: `_2`, `_3`, ... appended before the extension, possibly
      several times. */
  function NumberedBy(original: Path, indexes: seq<nat>): (r: Path)
    ensures r.dir == original.dir
  {
    if indexes == [] then original
    else Numbered(NumberedBy(original, indexes[..|indexes| - 1]), indexes[|indexes| - 1])
  }

  ghost predicate NumberedVariant(original: Path, path: Path) {
    exists indexes :: path == NumberedBy(original, indexes)
  }

  ghost predicate FirstFree(path: Path, target: Path, files: map<Path, Bytes>, index: nat) {
    && 2 <= index && target == Numbered(path, index)
    && (forall j: nat :: 2 <= j < index ==> Numbered(path, j) in files)
  }

  function Candidates(path: Path, index: nat): (c: set<Path>)
    ensures forall p :: p in c ==> exists j: nat :: 2 <= j < index && p == Numbered(path, j)
    ensures forall j: nat :: 2 <= j < index ==> Numbered(path, j) in c
  {
    if index <= 2 then {} else Candidates(path, index - 1) + {Numbered(path, index - 1)}
  }

  /** As many numbered variants exist as there are indexes: the probe must end. */
  lemma {:induction false} CandidatesFill(path: Path, index: nat, room: set<Path>)
    requires index >= 2 && Candidates(path, index) <= room
    ensures |Candidates(path, index)| == index - 2 <= |room|
  {
    if index > 2 {
      CandidatesFill(path, index - 1, room);
      if Numbered(path, index - 1) in Candidates(path, index - 1) {
        var j: nat :| 2 <= j < index - 1 && Numbered(path, index - 1) == Numbered(path, j);
        NumberedInjective(path, index - 1, j);
      }
    }
    SubsetSize(Candidates(path, index), room);
  }

  lemma SubsetSize(a: set<Path>, b: set<Path>)
    requires a <= b
    ensures |a| <= |b|
  {
    if p :| p in a {
      SubsetSize(a - {p}, b - {p});
    } else {
      assert a == {};
    }
  }

  /** The paths that may be taken while this process moves nothing. */
  ghost function Room(fs: FileSystem): set<Path>
    reads fs
  {
    fs.ours.Keys + fs.world
  }

  /** How many paths can be taken. */
  ghost function Space(keys: set<Path>, world: set<Path>): nat {
    |keys + world|
  }

  /** The probe of `_unique_target`: the first index whose numbered variant is free. */
  method FirstFreeIndex(fs: FileSystem, path: Path) returns (index: nat)
    requires fs.Valid()
    modifies fs
    ensures fs.OthersOnly()
    ensures Numbered(path, index) !in fs.files && FirstFree(path, Numbered(path, index), fs.files, index)
    ensures index <= 2 + Space(fs.ours.Keys, fs.world)
  {
    hide Numbered, FileSystem.Valid, Candidates, Space;
    index := 2;
    ghost var space := Space(fs.ours.Keys, fs.world);
    NoCandidates(path);
    while true
      invariant fs.OthersOnly()
      invariant 2 <= index <= 2 + space && Candidates(path, index) <= fs.files.Keys
      decreases 2 + space - index
    {
      var present := fs.Lexists(Numbered(path, index));
      if !present {
        break;
      }
      fs.OwnersOfFiles();
      NextCandidate(path, index, fs.files.Keys, fs.ours.Keys, fs.world);
      index := index + 1;
    }
  }

  lemma NoCandidates(path: Path)
    ensures Candidates(path, 2) == {}
  {
  }

  lemma NextCandidate(path: Path, index: nat, present: set<Path>, keys: set<Path>, world: set<Path>)
    requires index >= 2 && Candidates(path, index) <= present && Numbered(path, index) in present
    requires present <= keys + world
    ensures Candidates(path, index + 1) <= present && index - 1 <= Space(keys, world)
  {
    CandidatesFill(path, index + 1, keys + world);
  }

  /** `_unique_target`: the path itself or its first free numbered variant. */
  method UniqueTarget(fs: FileSystem, path: Path) returns (target: Path)
    requires fs.Valid()
    modifies fs
    ensures fs.OthersOnly()
    ensures target !in fs.files && target.dir == path.dir
    ensures target == path || (path in fs.files && exists k :: FirstFree(path, target, fs.files, k))
    ensures |target.name| <= |path.name| + Space(fs.ours.Keys, fs.world) + 4
  {
    var present := fs.Lexists(path);
    if !present {
      return path;
    }
    var index := FirstFreeIndex(fs, path);
    target := Numbered(path, index);
  }

  // ---- whole-unit renaming ---------------------------------------------------

  predicate ShortNames(paths: set<Path>, limit: nat) {
    forall p :: p in paths ==> |p.name| <= limit
  }

  predicate DistinctSources(entries: seq<Entry>) {
    forall i, j :: 0 <= i < j < |entries| ==> entries[i].source != entries[j].source
  }

  /** Some path a suffix attempt would need exists already. */
  predicate Blocked(plan: Plan, index: nat, files: map<Path, Bytes>) {
    var c := SuffixCandidate(plan, index);
    || (exists p :: p in c.rewritten && p in files)
    || (exists e :: e in c.entries && e.source in c.progressable && e.target in files)
  }

  lemma ProgressableIsUnit(plan: Plan, index: nat, k: nat)
    requires DistinctSources(plan.entries) && k < |plan.entries|
    requires plan.entries[k].source in SuffixCandidate(plan, index).progressable
    ensures IsUnit(OriginalOf(plan, k), plan.Base(), plan.member)
    ensures plan.Remap(index)[k].target == WithUnitSuffix(OriginalOf(plan, k), plan.Base(), index, plan.member)
  {
    var entries, next := plan.Remap(index), plan.Remap(index + 1);
    var m :| 0 <= m < |entries| && next[m].target != entries[m].target && entries[m].source == plan.entries[k].source;
    assert m == k;
  }

  lemma RewrittenBoundsIndex(plan: Plan, index: nat, p: Path, limit: nat)
    requires p in SuffixCandidate(plan, index).rewritten && |p.name| <= limit
    ensures index < Pow10(limit)
  {
    hide SplitExt, UnitPrefix, DestinationNamed, RFind, IsUnit, WithUnitSuffix;
    var q :| q in plan.Destinations() && p == WithUnitSuffix(q, plan.Base(), index, plan.member) && p != q;
    SuffixChangesUnits(q, plan.Base(), index, plan.member);
    SuffixBoundsIndex(q, plan.Base(), index, plan.member, limit);
  }

  lemma BlockedBoundsIndex(plan: Plan, index: nat, files: map<Path, Bytes>, limit: nat)
    requires DistinctSources(plan.entries) && ShortNames(files.Keys, limit) && Blocked(plan, index, files)
    ensures index < Pow10(limit)
  {
    hide SplitExt, UnitPrefix, DestinationNamed, RFind, IsUnit, WithUnitSuffix, OriginalOf, DistinctSources;
    var c := SuffixCandidate(plan, index);
    if p :| p in c.rewritten && p in files {
      RewrittenBoundsIndex(plan, index, p, limit);
    } else {
      var e :| e in c.entries && e.source in c.progressable && e.target in files;
      var k :| 0 <= k < |c.entries| && c.entries[k] == e;
      ProgressableIsUnit(plan, index, k);
      SuffixBoundsIndex(OriginalOf(plan, k), plan.Base(), index, plan.member, limit);
    }
  }

  lemma BlockedGrows(plan: Plan, index: nat, files: map<Path, Bytes>, files': map<Path, Bytes>)
    requires Blocked(plan, index, files) && files.Keys <= files'.Keys
    ensures Blocked(plan, index, files')
  {
  }

  ghost predicate AllBlocked(plan: Plan, start: nat, index: nat, files: map<Path, Bytes>) {
    forall j :: start <= j < index ==> Blocked(plan, j, files)
  }

  lemma AllBlockedExtends(plan: Plan, start: nat, index: nat, files: map<Path, Bytes>, files': map<Path, Bytes>)
    requires AllBlocked(plan, start, index, files) && files.Keys <= files'.Keys
    ensures AllBlocked(plan, start, index, files')
    ensures Blocked(plan, index, files') ==> AllBlocked(plan, start, index + 1, files')
  {
    forall j | start <= j < index ensures Blocked(plan, j, files') {
      BlockedGrows(plan, j, files, files');
    }
  }

  method AnyProgressableTaken(fs: FileSystem, candidate: Candidate) returns (taken: bool)
    requires fs.Valid()
    modifies fs
    ensures fs.OthersOnly()
    ensures taken ==> exists e :: e in candidate.entries && e.source in candidate.progressable && e.target in fs.files
    ensures !taken ==> forall e :: e in candidate.entries && e.source in candidate.progressable ==> e.target !in old(fs.files)
  {
    for k := 0 to |candidate.entries|
      invariant fs.OthersOnly()
      invariant forall e :: e in candidate.entries[..k] && e.source in candidate.progressable ==> e.target !in old(fs.files)
    {
      var e := candidate.entries[k];
      var present := fs.Lexists(e.target);
      if present && e.source in candidate.progressable {
        assert e in candidate.entries;
        return true;
      }
    }
    taken := false;
  }

  /** One round of `_apply_unit_rename`. */
  method ProbeCandidate(fs: FileSystem, plan: Plan, index: nat) returns (blocked: bool)
    requires fs.Valid()
    modifies fs
    ensures fs.OthersOnly()
    ensures blocked ==> Blocked(plan, index, fs.files)
    ensures !blocked ==> !Blocked(plan, index, old(fs.files))
  {
    var candidate := SuffixCandidate(plan, index);
    var hit := FirstExisting(fs, candidate.rewritten);
    if hit.Some? {
      return true;
    }
    blocked := AnyProgressableTaken(fs, candidate);
  }

  /** `_apply_unit_rename`: probe whole-unit suffixes until one is free. */
  method ApplyUnitRename(fs: FileSystem, plan: Plan, start: nat, ghost limit: nat)
    returns (index: nat, attempt: seq<Entry>)
    requires fs.Valid() && DistinctSources(plan.entries)
    requires ShortNames(Room(fs), limit)
    modifies fs
    ensures fs.OthersOnly()
    ensures start <= index && attempt == plan.Remap(index)
    ensures index == start || index <= Pow10(limit)
    ensures AllBlocked(plan, start, index, fs.files)
    ensures !Blocked(plan, index, old(fs.files))
  {
    index := start;
    while true
      invariant fs.OthersOnly()
      invariant start <= index && (index == start || index <= Pow10(limit))
      invariant AllBlocked(plan, start, index, fs.files)
      decreases Pow10(limit) - index
    {
      ghost var files := fs.files;
      var blocked := ProbeCandidate(fs, plan, index);
      AllBlockedExtends(plan, start, index, files, fs.files);
      if !blocked {
        if Blocked(plan, index, old(fs.files)) {
          BlockedGrows(plan, index, old(fs.files), files);
        }
        return index, plan.Remap(index);
      }
      BlockedBoundsIndex(plan, index, fs.files, limit);
      index := index + 1;
    }
  }

  // ---- moving one staged file ------------------------------------------------

  datatype Step = Done(target: Path) | Restart | Stop(error: Error)

  /** How many more collisions one file can meet: each uses up one path of the other writers. */
  ghost function BudgetOf(world: set<Path>, born: set<Path>, present: bool): nat {
    |world - born| + if present then 1 else 0
  }

  ghost function Budget(fs: FileSystem, target: Path): nat
    reads fs
  {
    BudgetOf(fs.world, fs.born.Keys, target in fs.files)
  }

  lemma BudgetShrinks(world: set<Path>, before: set<Path>, after: set<Path>, present: bool)
    requires before <= after <= world && (present || before != after)
    ensures BudgetOf(world, after, false) < BudgetOf(world, before, present)
  {
    if before != after {
      assert exists p :: p in after && p !in before;
      var p :| p in after && p !in before;
      SubsetSize(world - after, world - before - {p});
    }
  }

  /** The file was moved if `moved`, and otherwise only other writers acted. */
  twostate predicate Acted(fs: FileSystem, moved: bool, source: Path, target: Path)
    requires source in old(fs.ours)
    reads fs
  {
    && fs.Valid()
    && old(fs.clock) <= fs.clock
    && Kept(old(fs.born), fs.born)
    && (moved ==> target !in old(fs.ours))
    && fs.ours == if moved then FileSystem.Relocated(old(fs.ours), source, target) else old(fs.ours)
  }

  /** One attempt to move a staged file. */
  method TryMove(fs: FileSystem, policy: Policy, source: Path, target: Path) returns (m: MoveResult)
    requires fs.Valid() && source in fs.ours && source != target
    requires policy.Overwrite? ==> fs.world == {} && target !in fs.ours
    modifies fs
    ensures Acted(fs, m.Moved?, source, target)
    ensures m.TargetExists? ==> !policy.Overwrite? && target in fs.files
    ensures policy.Overwrite? ==> (m.Moved? <==> !fs.schedule(old(fs.clock) + 1).fault)
    ensures m.MoveFailed? ==> fs.FaultBetween(old(fs.clock), fs.clock)
  {
    var present := fs.Lexists(target);
    if present && policy != Overwrite {
      m := TargetExists;
    } else if policy == Overwrite {
      var ok := fs.Replace(source, target);
      m := if ok then Moved else MoveFailed;
    } else {
      m := fs.MoveNoReplace(source, target);
    }
    assert m.MoveFailed? ==> fs.schedule(fs.clock - 1).fault;
  }

  /** One round for one file: move it, or after a collision under `rename` choose the next
      per-file name (`again`). */
  method MoveOrRename(fs: FileSystem, policy: Policy, source: Path, target: Path, unit: bool,
                      ghost room: nat, ghost budget: nat)
    returns (m: MoveResult, again: bool, next: Path, ghost index: nat)
    requires fs.Valid() && source in fs.ours && source != target
    requires Space(fs.ours.Keys, fs.world) <= room && Budget(fs, target) <= budget
    requires policy.Overwrite? ==> fs.world == {} && target !in fs.ours
    modifies fs
    ensures Acted(fs, m.Moved?, source, target)
    ensures m.TargetExists? && !again ==> !policy.Overwrite? && target in fs.files && (policy.Rename? ==> unit)
    ensures policy.Overwrite? ==> (m.Moved? <==> !fs.schedule(old(fs.clock) + 1).fault)
    ensures m.MoveFailed? ==> fs.FaultBetween(old(fs.clock), fs.clock)
    ensures again ==> m.TargetExists? && policy.Rename? && !unit
    ensures again ==> next == Numbered(target, index) && 2 <= index
    ensures again ==> |next.name| <= |target.name| + room + 4
    ensures again ==> Budget(fs, next) < budget
  {
    hide Numbered, FileSystem.Valid, FileSystem.Relocated, Space, BudgetOf;
    fs.OwnersOfFiles();
    m := TryMove(fs, policy, source, target);
    again, next, index := m.TargetExists? && policy == Rename && !unit, target, 2;
    if again {
      fs.OwnersOfFiles();
      next := UniqueTarget(fs, target);
      fs.OwnersOfFiles();
      BudgetShrinks(fs.world, old(fs.born.Keys), fs.born.Keys, target in old(fs.files));
      index :| FirstFree(target, next, fs.files, index);
    }
  }

  /** How much longer than the intended name a per-file fallback can get. */
  function Reach(times: nat, room: nat): nat {
    if times == 0 then 0 else Reach(times - 1, room) + room + 4
  }

  lemma {:induction false} ReachMonotone(a: nat, b: nat, room: nat)
    requires a <= b
    ensures Reach(a, room) <= Reach(b, room)
  {
    if a < b {
      ReachMonotone(a, b - 1, room);
    }
  }

  /** How a staged file's final path relates to its intended one. */
  ghost predicate Settled(initial: Path, target: Path, indexes: seq<nat>, policy: Policy, unit: bool, longest: nat) {
    && target == NumberedBy(initial, indexes)
    && (unit || !policy.Rename? ==> indexes == [])
    && |target.name| <= |initial.name| + longest
  }

  lemma RetryStarts(fs: FileSystem, initial: Path, room: nat)
    ensures NumberedBy(initial, []) == initial && Reach(0, room) == 0
    ensures Budget(fs, initial) <= |fs.world| + 1
  {
    SubsetSize(fs.world - fs.born.Keys, fs.world);
  }

  lemma RetrySteps(initial: Path, indexes: seq<nat>, index: nat, room: nat)
    ensures NumberedBy(initial, indexes + [index]) == Numbered(NumberedBy(initial, indexes), index)
    ensures Reach(|indexes| + 1, room) == Reach(|indexes|, room) + room + 4
  {
    assert (indexes + [index])[..|indexes|] == indexes;
  }

  /** The inner retry loop around one staged file. */
  method Retry(fs: FileSystem, policy: Policy, source: Path, initial: Path, unit: bool)
    returns (m: MoveResult, target: Path, ghost indexes: seq<nat>)
    requires fs.Valid() && source in fs.ours && source.dir != initial.dir
    requires policy.Overwrite? ==> fs.world == {} && initial !in fs.ours
    modifies fs
    ensures Acted(fs, m.Moved?, source, target)
    ensures Settled(initial, target, indexes, policy, unit, Reach(|fs.world| + 1, Space(old(fs.ours.Keys), fs.world)))
    ensures m.TargetExists? ==> !policy.Overwrite? && target in fs.files && (policy.Rename? ==> unit)
    ensures policy.Overwrite? ==> (m.Moved? <==> !fs.schedule(old(fs.clock) + 1).fault)
    ensures m.MoveFailed? ==> fs.FaultBetween(old(fs.clock), fs.clock)
  {
    hide FileSystem.Valid, Numbered, NumberedBy, Reach, Budget;
    ghost var room := Space(fs.ours.Keys, fs.world);
    target, indexes := initial, [];
    ghost var budget := |fs.world| + 1;
    RetryStarts(fs, initial, room);
    while true
      invariant fs.OthersOnly()
      invariant target == NumberedBy(initial, indexes)
      invariant indexes != [] ==> policy.Rename? && !unit
      invariant policy.Overwrite? ==> fs.clock == old(fs.clock) && fs.ours == old(fs.ours)
      invariant Budget(fs, target) <= budget && |indexes| + budget == |fs.world| + 1
      invariant |target.name| <= |initial.name| + Reach(|indexes|, room)
      decreases budget
    {
      var again, next;
      ghost var index;
      m, again, next, index := MoveOrRename(fs, policy, source, target, unit, room, budget);
      if !again {
        break;
      }
      RetrySteps(initial, indexes, index, room);
      target, indexes, budget := next, indexes + [index], budget - 1;
    }
    ReachMonotone(|indexes|, |fs.world| + 1, room);
  }

  ghost predicate StopsFor(fs: FileSystem, policy: Policy, initial: Path, error: Error, since: nat)
    reads fs
  {
    match error
    case Collision(p) => policy.Fail? && p == initial && p in fs.files
    case SkippedFor(p) => policy.Skip? && p == initial && p in fs.files
    case Fault => fs.FaultBetween(since, fs.clock)
    case _ => false
  }

  /** Make the target's directory, then move the file with retries. */
  method PublishOne(fs: FileSystem, policy: Policy, source: Path, initial: Path, unit: bool)
    returns (step: Step, ghost indexes: seq<nat>)
    requires fs.Valid() && source in fs.ours && source.dir != initial.dir
    requires policy.Overwrite? ==> fs.world == {} && initial !in fs.ours
    modifies fs
    ensures Acted(fs, step.Done?, source, if step.Done? then step.target else initial)
    ensures step.Done? ==> Settled(initial, step.target, indexes, policy, unit,
                                   Reach(|fs.world| + 1, Space(old(fs.ours.Keys), fs.world)))
    ensures policy.Overwrite? && step.Done? ==> !fs.schedule(old(fs.clock) + 2).fault
    ensures step.Restart? ==> policy.Rename? && unit && initial in fs.files
    ensures step.Stop? ==> StopsFor(fs, policy, initial, step.error, old(fs.clock))
  {
    hide FileSystem.Valid, Numbered, Reach;
    var ok := fs.MakeDirs();
    if !ok {
      assert fs.schedule(old(fs.clock)).fault;
      return Stop(Fault), [];
    }
    var m, target;
    m, target, indexes := Retry(fs, policy, source, initial, unit);
    step := match m
      case Moved => Done(target)
      case MoveFailed => Stop(Fault)
      case TargetExists =>
        if policy == Fail then Stop(Collision(target))
        else if policy == Skip then Stop(SkippedFor(target))
        else Restart;
  }

  // ---- one attempt at the whole unit -----------------------------------------

  datatype Attempted = AllMoved | Raced | Stopped(error: Error)

  predicate UnitMember(plan: Plan, k: nat)
    requires k < |plan.entries|
  {
    UnitPrefix(plan.entries[k].source.name, plan.Base(), plan.member).Some?
  }

  /** The paths an attempt aims at: one per staged file, in the same directories. */
  ghost predicate Aims(attempt: seq<Entry>, entries: seq<Entry>) {
    && |attempt| == |entries|
    && (forall k :: 0 <= k < |entries| ==>
          attempt[k].source == entries[k].source && attempt[k].target.dir in OutDirs(entries))
  }

  /** Unit files stand exactly where the attempt aimed; any other file stands there or at a
      numbered variant of bounded length. */
  ghost predicate Landed(moved: seq<Entry>, attempt: seq<Entry>, plan: Plan, policy: Policy, unitRename: bool,
                         longest: nat)
    requires |plan.entries| == |attempt|
  {
    && |moved| <= |attempt|
    && (forall k :: 0 <= k < |moved| ==>
          && ((unitRename && UnitMember(plan, k)) || !policy.Rename? ==> moved[k].target == attempt[k].target)
          && NumberedVariant(attempt[k].target, moved[k].target)
          && |moved[k].target.name| <= |attempt[k].target.name| + longest)
  }

  /** The longest extension of a per-file fallback name during one attempt. */
  ghost function Longest(world: set<Path>, base: map<Path, Bytes>, files: nat): nat {
    Reach(|world| + 1, Space(base.Keys, world) + files)
  }

  lemma {:induction false} ReachGrows(times: nat, a: nat, b: nat)
    requires a <= b
    ensures Reach(times, a) <= Reach(times, b)
  {
    if times > 0 {
      ReachGrows(times - 1, a, b);
    }
  }

  lemma {:induction false} TargetsCount(moved: seq<Entry>)
    ensures |Targets(moved)| <= |moved|
  {
    if moved == [] {
      assert Targets(moved) == {};
    } else {
      var rest, last := moved[..|moved| - 1], moved[|moved| - 1];
      TargetsCount(rest);
      assert moved == rest + [last];
      forall p | p in Targets(moved) ensures p in Targets(rest) + {last.target} {
        var d :| d in moved && d.target == p;
        assert d in rest || d == last;
      }
      SubsetSize(Targets(moved), Targets(rest) + {last.target});
    }
  }

  lemma SpaceGrows(ours: set<Path>, base: set<Path>, targets: set<Path>, world: set<Path>)
    requires ours <= base + targets
    ensures Space(ours, world) <= Space(base, world) + |targets|
  {
    var more := targets - (base + world);
    SubsetSize(ours + world, (base + world) + more);
    SubsetSize(more, targets);
  }

  lemma ImageKeys(ours: map<Path, Bytes>, base: map<Path, Bytes>, moved: seq<Entry>)
    requires Image(ours, base, moved)
    ensures ours.Keys <= base.Keys + Targets(moved)
  {
  }

  lemma SpaceDuringAttempt(ours: map<Path, Bytes>, base: map<Path, Bytes>, moved: seq<Entry>, world: set<Path>)
    requires Image(ours, base, moved)
    ensures Space(ours.Keys, world) <= Space(base.Keys, world) + |moved|
  {
    hide Image, Targets, Space;
    ImageKeys(ours, base, moved);
    SpaceGrows(ours.Keys, base.Keys, Targets(moved), world);
    TargetsCount(moved);
  }

  lemma RoomDuringAttempt(ours: map<Path, Bytes>, base: map<Path, Bytes>, moved: seq<Entry>, world: set<Path>,
                          files: nat)
    requires Image(ours, base, moved) && |moved| <= files
    ensures Reach(|world| + 1, Space(ours.Keys, world)) <= Longest(world, base, files)
  {
    hide Image, Reach, Space;
    SpaceDuringAttempt(ours, base, moved, world);
    ReachGrows(|world| + 1, Space(ours.Keys, world), Space(base.Keys, world) + files);
  }

  lemma LandedExtends(moved: seq<Entry>, attempt: seq<Entry>, plan: Plan, policy: Policy, unitRename: bool,
                      longest: nat, target: Path, indexes: seq<nat>, reach: nat)
    requires |plan.entries| == |attempt| && |moved| < |attempt|
    requires Landed(moved, attempt, plan, policy, unitRename, longest)
    requires Settled(attempt[|moved|].target, target, indexes, policy, unitRename && UnitMember(plan, |moved|), reach)
    requires reach <= longest
    ensures target.dir == attempt[|moved|].target.dir
    ensures Landed(moved + [Entry(attempt[|moved|].source, target)], attempt, plan, policy, unitRename, longest)
  {
    var all := moved + [Entry(attempt[|moved|].source, target)];
    forall k | 0 <= k < |all|
      ensures NumberedVariant(attempt[k].target, all[k].target)
    {
      if k == |moved| {
        assert all[k].target == NumberedBy(attempt[k].target, indexes);
      } else {
        assert all[k] == moved[k];
      }
    }
  }

  ghost predicate Entered(fs: FileSystem, plan: Plan, attempt: seq<Entry>, policy: Policy, base: map<Path, Bytes>)
    reads fs
  {
    && Holds(fs, plan.entries, base, [])
    && Aims(attempt, plan.entries)
    && (policy.Overwrite? ==> fs.world == {} && attempt == plan.entries && Targets(plan.entries) !! base.Keys)
  }

  lemma NotYetThere(ours: map<Path, Bytes>, base: map<Path, Bytes>, moved: seq<Entry>, plan: Plan,
                    world: set<Path>, unitRename: bool, longest: nat)
    requires Held(ours, world, plan.entries, base, moved) && |moved| < |plan.entries|
    requires Targets(plan.entries) !! base.Keys
    requires Landed(moved, plan.entries, plan, Overwrite, unitRename, longest)
    ensures plan.entries[|moved|].target !in ours
  {
    hide NumberedVariant, UnitMember;
    var t := plan.entries[|moved|].target;
    assert plan.entries[|moved|] in plan.entries;
    assert t in Targets(plan.entries);
    forall d | d in moved ensures d.target != t {
      var m := MovedIndex(d, moved, plan.entries);
    }
  }

  /** One round of the `for` loop over the staged files. */
  method PublishNext(fs: FileSystem, plan: Plan, attempt: seq<Entry>, policy: Policy, unitRename: bool,
                     ghost base: map<Path, Bytes>, moved: seq<Entry>)
    returns (moved': seq<Entry>, status: Attempted)
    requires Holds(fs, plan.entries, base, moved) && Aims(attempt, plan.entries) && |moved| < |attempt|
    requires Landed(moved, attempt, plan, policy, unitRename, Longest(fs.world, base, |plan.entries|))
    requires policy.Overwrite? ==> fs.world == {} && attempt == plan.entries && Targets(plan.entries) !! base.Keys
    modifies fs
    ensures Holds(fs, plan.entries, base, moved') && old(fs.clock) <= fs.clock && Kept(old(fs.born), fs.born)
    ensures Landed(moved', attempt, plan, policy, unitRename, Longest(fs.world, base, |plan.entries|))
    ensures if status.AllMoved? then |moved'| == |moved| + 1 else moved' == moved
    ensures policy.Overwrite? && status.AllMoved? ==> !fs.schedule(old(fs.clock) + 2).fault
    ensures status.Raced? ==>
      policy.Rename? && unitRename && UnitMember(plan, |moved|) && attempt[|moved|].target in fs.files
    ensures status.Stopped? ==> StopsFor(fs, policy, attempt[|moved|].target, status.error, old(fs.clock))
  {
    hide FileSystem.Valid, Image, StagedUnit, Moves, Settled, UnitPrefix, Landed, Space, StopsFor, Longest, Reach,
         Sources, Targets;
    var source, initial := attempt[|moved|].source, attempt[|moved|].target;
    var unit := unitRename && UnitPrefix(source.name, plan.Base(), plan.member).Some?;
    assert unit == (unitRename && UnitMember(plan, |moved|));
    NextSource(fs.ours, fs.world, plan.entries, base, moved, initial);
    if policy == Overwrite {
      NotYetThere(fs.ours, base, moved, plan, fs.world, unitRename, Longest(fs.world, base, |plan.entries|));
    }
    RoomDuringAttempt(fs.ours, base, moved, fs.world, |plan.entries|);
    ghost var ours, reach := fs.ours, Reach(|fs.world| + 1, Space(fs.ours.Keys, fs.world));
    var step;
    ghost var indexes;
    step, indexes := PublishOne(fs, policy, source, initial, unit);
    match step {
      case Done(target) =>
        LandedExtends(moved, attempt, plan, policy, unitRename, Longest(fs.world, base, |plan.entries|),
                      target, indexes, reach);
        HeldMoves(ours, fs.world, plan.entries, base, moved, target);
        moved', status := moved + [Entry(source, target)], AllMoved;
      case Restart =>
        moved', status := moved, Raced;
      case Stop(error) =>
        moved', status := moved, Stopped(error);
    }
  }

  lemma NextSource(ours: map<Path, Bytes>, world: set<Path>, entries: seq<Entry>, base: map<Path, Bytes>,
                   moved: seq<Entry>, initial: Path)
    requires Held(ours, world, entries, base, moved) && |moved| < |entries| && initial.dir in OutDirs(entries)
    ensures entries[|moved|].source in ours && entries[|moved|].source.dir != initial.dir
  {
    hide Image, Moves, Sources;
    StagedSource(entries, base, world, entries[|moved|], initial);
    NextIsUnmoved(moved, entries, base, world);
    UnmovedStays(ours, base, moved, entries[|moved|].source);
  }

  lemma LaterStop(fs: FileSystem, policy: Policy, initial: Path, error: Error, since: nat, earlier: nat)
    requires StopsFor(fs, policy, initial, error, since) && earlier <= since
    ensures StopsFor(fs, policy, initial, error, earlier)
  {
  }

  lemma NothingLanded(attempt: seq<Entry>, plan: Plan, policy: Policy, unitRename: bool, longest: nat)
    requires |plan.entries| == |attempt|
    ensures Landed([], attempt, plan, policy, unitRename, longest)
  {
  }

  /** The `for` loop over the staged files. */
  method PublishAttempt(fs: FileSystem, plan: Plan, attempt: seq<Entry>, policy: Policy, unitRename: bool,
                        ghost base: map<Path, Bytes>)
    returns (moved: seq<Entry>, status: Attempted)
    requires Entered(fs, plan, attempt, policy, base)
    modifies fs
    ensures Holds(fs, plan.entries, base, moved) && old(fs.clock) <= fs.clock && Kept(old(fs.born), fs.born)
    ensures Landed(moved, attempt, plan, policy, unitRename, Longest(fs.world, base, |plan.entries|))
    ensures status.AllMoved? ==> |moved| == |plan.entries|
    ensures policy.Overwrite? && status.AllMoved? && attempt != [] ==> !fs.schedule(old(fs.clock) + 2).fault
    ensures status.Raced? ==>
      && policy.Rename? && unitRename && |moved| < |plan.entries|
      && UnitMember(plan, |moved|) && attempt[|moved|].target in fs.files
    ensures status.Stopped? ==>
      |moved| < |plan.entries| && StopsFor(fs, policy, attempt[|moved|].target, status.error, old(fs.clock))
  {
    hide FileSystem.Valid, Image, StagedUnit, Moves, Landed, StopsFor, Longest, Sources, Targets, UnitMember;
    moved, status := [], AllMoved;
    NothingLanded(attempt, plan, policy, unitRename, Longest(fs.world, base, |plan.entries|));
    while |moved| < |attempt|
      invariant Holds(fs, plan.entries, base, moved) && old(fs.clock) <= fs.clock && Kept(old(fs.born), fs.born)
      invariant |moved| <= |attempt| && status.AllMoved?
      invariant moved == [] ==> fs.clock == old(fs.clock)
      invariant policy.Overwrite? && moved != [] ==> !fs.schedule(old(fs.clock) + 2).fault
      invariant Landed(moved, attempt, plan, policy, unitRename, Longest(fs.world, base, |plan.entries|))
      decreases |attempt| - |moved|
    {
      ghost var since := fs.clock;
      moved, status := PublishNext(fs, plan, attempt, policy, unitRename, base, moved);
      if status != AllMoved {
        if status.Stopped? {
          LaterStop(fs, policy, attempt[|moved|].target, status.error, since, old(fs.clock));
        }
        break;
      }
    }
  }

  // ---- undoing, restarting, and why it ends ----------------------------------

  /** Put the moved files back, last first. */
  method UndoMoves(fs: FileSystem, moved: seq<Entry>, ghost entries: seq<Entry>, ghost base: map<Path, Bytes>)
    requires Holds(fs, entries, base, moved)
    modifies fs
    ensures Holds(fs, entries, base, []) && old(fs.clock) <= fs.clock && Kept(old(fs.born), fs.born)
  {
    hide Image, StagedUnit, Moves;
    var k := |moved|;
    assert moved[..k] == moved;
    while k > 0
      invariant 0 <= k <= |moved| && Holds(fs, entries, base, moved[..k])
      invariant old(fs.clock) <= fs.clock && Kept(old(fs.born), fs.born)
    {
      var e := moved[k - 1];
      HeldUndone(fs.ours, fs.world, entries, base, moved[..k]);
      assert moved[..k][..k - 1] == moved[..k - 1];
      var present := fs.Lexists(e.target);
      if present {
        fs.MoveBack(e.target, e.source);
      }
      k := k - 1;
    }
  }

  function AttemptFor(plan: Plan, unitIndex: Option<nat>): (r: seq<Entry>)
    ensures |r| == |plan.entries|
  {
    if unitIndex.None? then plan.entries else plan.Remap(unitIndex.value)
  }

  /** The path a file's name is derived from: without a unit suffix its own target. */
  function Intended(plan: Plan, unitIndex: Option<nat>, k: nat): Path
    requires k < |plan.entries|
  {
    if unitIndex.None? then plan.entries[k].target else OriginalOf(plan, k)
  }

  lemma AttemptAims(plan: Plan, unitIndex: Option<nat>)
    requires SameNames(plan.entries)
    ensures Aims(AttemptFor(plan, unitIndex), plan.entries)
    ensures forall k :: 0 <= k < |plan.entries| ==>
      AttemptFor(plan, unitIndex)[k].target ==
        if unitIndex.None? then plan.entries[k].target
        else WithUnitSuffix(OriginalOf(plan, k), plan.Base(), unitIndex.value, plan.member)
  {
    hide DestinationNamed, UnitPrefix;
    forall k | 0 <= k < |plan.entries| ensures Intended(plan, unitIndex, k).dir in OutDirs(plan.entries) {
      OriginalIsNamed(plan, k);
      var j :| 0 <= j < |plan.entries| && OriginalOf(plan, k) == plan.entries[j].target;
      assert plan.entries[j] in plan.entries && plan.entries[k] in plan.entries;
    }
  }

  /** Every name the transaction starts from is at most this long. */
  ghost predicate Limited(plan: Plan, base: map<Path, Bytes>, world: set<Path>, limit: nat) {
    && ShortNames(base.Keys + world + Targets(plan.entries), limit)
    && |plan.Base()| <= limit && (plan.member.Some? ==> |plan.member.value| <= limit)
  }

  ghost function LongestName(paths: set<Path>): (limit: nat)
    ensures ShortNames(paths, limit)
  {
    if paths == {} then 0
    else
      var p :| p in paths;
      |p.name| + LongestName(paths - {p})
  }

  ghost function LimitOf(plan: Plan, base: map<Path, Bytes>, world: set<Path>): (limit: nat)
    ensures Limited(plan, base, world, limit)
  {
    LongestName(base.Keys + world + Targets(plan.entries))
      + |plan.Base()| + if plan.member.Some? then |plan.member.value| else 0
  }

  /** A whole-unit attempt only restarts while its suffix index is still small: whatever
      stands in the way has a name of bounded length. */
  lemma RaceBoundsIndex(plan: Plan, index: nat, ours: map<Path, Bytes>, base: map<Path, Bytes>, world: set<Path>,
                        moved: seq<Entry>, limit: nat, longest: nat)
    requires Held(ours, world, plan.entries, base, moved) && DistinctUnitNames(plan)
    requires |moved| < |plan.entries| && UnitMember(plan, |moved|)
    requires Landed(moved, plan.Remap(index), plan, Rename, true, longest)
    requires Limited(plan, base, world, limit)
    requires plan.Remap(index)[|moved|].target in ours || plan.Remap(index)[|moved|].target in world
    ensures index < Pow10(limit + longest)
  {
    hide UnitPrefix, SplitExt, Moves, OriginalOf, NumberedBy, FileSystem.Valid, Landed, SameNames, DistinctUnitNames,
         Image, UnitMember, IsUnit, WithUnitSuffix;
    var k := |moved|;
    RemappedAt(plan, index, k);
    SameNamesAt(plan, k);
    ImageKeys(ours, base, moved);
    var t := plan.Remap(index)[k].target;
    if t in base || t in world {
      SuffixBoundsIndex(plan.entries[k].target, plan.Base(), index, plan.member, limit + longest);
    } else {
      var d :| d in moved && d.target == t;
      var j := MovedIndex(d, moved, plan.entries);
      OwnFileInTheWay(plan, index, base, world, moved, limit, longest, j);
    }
  }

  /** A suffix attempt's path for one file. */
  lemma RemappedAt(plan: Plan, index: nat, k: nat)
    requires SameNames(plan.entries) && DistinctUnitNames(plan) && k < |plan.entries|
    ensures plan.Remap(index)[k].target ==
              if UnitMember(plan, k) then WithUnitSuffix(plan.entries[k].target, plan.Base(), index, plan.member)
              else OriginalOf(plan, k)
    ensures OriginalOf(plan, k).name == plan.entries[k].target.name
  {
    hide UnitPrefix, DestinationNamed, DistinctUnitNames;
    SameNamesAt(plan, k);
    OriginalIsNamed(plan, k);
    if UnitMember(plan, k) {
      UnitOriginalIsOwn(plan, k);
    }
  }

  lemma OwnFileInTheWay(plan: Plan, index: nat, base: map<Path, Bytes>, world: set<Path>, moved: seq<Entry>,
                        limit: nat, longest: nat, j: nat)
    requires StagedUnit(plan.entries, base, world) && DistinctUnitNames(plan)
    requires j < |moved| < |plan.entries| && UnitMember(plan, |moved|)
    requires Landed(moved, plan.Remap(index), plan, Rename, true, longest)
    requires Limited(plan, base, world, limit)
    requires plan.Remap(index)[|moved|].target == moved[j].target
    ensures index < Pow10(limit + longest)
  {
    hide UnitPrefix, SplitExt, Moves, OriginalOf, NumberedBy, FileSystem.Valid, SameNames, DistinctUnitNames;
    var own, other := plan.entries[|moved|].target, plan.entries[j].target;
    RemappedAt(plan, index, |moved|);
    RemappedAt(plan, index, j);
    SameNamesAt(plan, |moved|);
    SameNamesAt(plan, j);
    assert own != other;
    if UnitMember(plan, j) {
      ClashBoundsIndex(own, other, index, plan.Base(), plan.member, limit + longest);
    } else {
      assert plan.entries[j] in plan.entries && other in Targets(plan.entries);
      SuffixBoundsIndex(own, plan.Base(), index, plan.member, limit + longest);
    }
  }

  /** Two unit files with one basename aim at one path: no suffix attempt can land the unit. */
  lemma SharedBasenameAlwaysRaces(plan: Plan, index: nat, moved: seq<Entry>, longest: nat, i: nat, j: nat)
    requires SameNames(plan.entries) && i < j < |plan.entries|
    requires UnitMember(plan, i) && plan.entries[i].target.name == plan.entries[j].target.name
    requires Moves(moved, plan.entries) && Landed(moved, plan.Remap(index), plan, Rename, true, longest)
    ensures plan.Remap(index)[i].target == plan.Remap(index)[j].target
    ensures |moved| <= j
  {
    hide UnitPrefix, DestinationNamed, NumberedVariant;
    assert plan.entries[i] in plan.entries && plan.entries[j] in plan.entries;
    assert UnitMember(plan, j);
    assert plan.Destinations()[i] == plan.entries[i].target;
    assert DestinationNamed(plan.Destinations(), plan.entries[i].source.name).Some?;
  }

  lemma SameNamesAt(plan: Plan, k: nat)
    requires SameNames(plan.entries) && k < |plan.entries|
    ensures UnitMember(plan, k) <==> IsUnit(plan.entries[k].target, plan.Base(), plan.member)
    ensures !UnitMember(plan, k) ==>
      forall index :: WithUnitSuffix(plan.entries[k].target, plan.Base(), index, plan.member) == plan.entries[k].target
  {
    assert plan.entries[k] in plan.entries;
  }

  // ---- why an index is passed over -------------------------------------------

  /** The index an attempt counts as; the one without a suffix comes first. */
  function Rank(unitIndex: Option<nat>): nat {
    if unitIndex.Some? then unitIndex.value else 1
  }

  function AttemptAt(plan: Plan, index: nat): (r: seq<Entry>)
    ensures |r| == |plan.entries|
  {
    AttemptFor(plan, if index < 2 then None else Some(index))
  }

  /** An earlier staged file takes the path of a unit file. */
  ghost predicate SelfRace(plan: Plan, attempt: seq<Entry>)
    requires |attempt| == |plan.entries|
  {
    exists i, k :: 0 <= i < k < |attempt| && UnitMember(plan, k) && InTheWay(plan, attempt, i, k)
  }

  ghost predicate InTheWay(plan: Plan, attempt: seq<Entry>, i: nat, k: nat)
    requires i < |attempt| == |plan.entries| && k < |attempt|
  {
    if UnitMember(plan, i) then attempt[k].target == attempt[i].target
    else NumberedVariant(attempt[i].target, attempt[k].target)
  }

  /** An index is not used for one of two reasons: a path it needs exists already, or two staged
      files are in each other's way. */
  ghost predicate Passed(plan: Plan, index: nat, files: map<Path, Bytes>) {
    || (if index < 2 then exists e :: e in plan.entries && e.target in files else Blocked(plan, index, files))
    || SelfRace(plan, AttemptAt(plan, index))
  }

  ghost predicate AllPassed(plan: Plan, index: nat, files: map<Path, Bytes>) {
    forall j: nat :: 1 <= j < index ==> Passed(plan, j, files)
  }

  lemma PassedGrows(plan: Plan, index: nat, files: map<Path, Bytes>, files': map<Path, Bytes>)
    requires AllPassed(plan, index, files) && files.Keys <= files'.Keys
    ensures AllPassed(plan, index, files')
  {
    hide SelfRace, AttemptAt, Blocked;
    forall j: nat | 1 <= j < index ensures Passed(plan, j, files') {
      assert Passed(plan, j, files);
      if j >= 2 && Blocked(plan, j, files) {
        BlockedGrows(plan, j, files, files');
      }
    }
  }

  lemma BornGrows(base: map<Path, Bytes>, born: map<Path, Bytes>, born': map<Path, Bytes>)
    requires Kept(born, born')
    ensures (base + born).Keys <= (base + born').Keys
  {
  }

  lemma PassedSoFar(plan: Plan, start: nat, index: nat, files: map<Path, Bytes>, files': map<Path, Bytes>)
    requires start >= 2 && AllPassed(plan, start, files) && AllBlocked(plan, start, index, files')
    requires files.Keys <= files'.Keys
    ensures AllPassed(plan, index, files')
  {
    hide SelfRace, AttemptAt, Blocked;
    PassedGrows(plan, start, files, files');
  }

  lemma FirstPassed(plan: Plan, hit: Path, files: map<Path, Bytes>)
    requires hit in plan.Destinations() && hit in files
    ensures AllPassed(plan, 2, files)
  {
    hide SelfRace, AttemptAt;
    var k :| 0 <= k < |plan.Destinations()| && plan.Destinations()[k] == hit;
    assert plan.entries[k] in plan.entries && plan.entries[k].target == hit;
  }

  /** A raced attempt is passed over for good reason. */
  lemma RacePassed(fs: FileSystem, plan: Plan, unitIndex: Option<nat>, base: map<Path, Bytes>, moved: seq<Entry>,
                   longest: nat)
    requires Holds(fs, plan.entries, base, moved) && |moved| < |plan.entries| && UnitMember(plan, |moved|)
    requires unitIndex.Some? ==> unitIndex.value >= 2 && DistinctUnitNames(plan)
    requires Landed(moved, AttemptFor(plan, unitIndex), plan, Rename, true, longest)
    requires AttemptFor(plan, unitIndex)[|moved|].target in fs.files
    ensures Passed(plan, Rank(unitIndex), base + fs.born)
  {
    hide FileSystem.Valid, Landed, UnitMember, Image, StagedUnit, Moves, Blocked, DistinctUnitNames, NumberedVariant,
         AttemptFor;
    var k, attempt := |moved|, AttemptFor(plan, unitIndex);
    var t := attempt[k].target;
    fs.OwnersOfFiles();
    ImageKeys(fs.ours, base, moved);
    if t in base + fs.born {
      TakenPasses(plan, unitIndex, fs.ours, fs.world, base, moved, base + fs.born);
    } else {
      var d :| d in moved && d.target == t;
      var i := MovedIndex(d, moved, plan.entries);
      LandedAt(moved, attempt, plan, Rename, true, longest, i);
      assert InTheWay(plan, attempt, i, k);
    }
  }

  lemma TakenPasses(plan: Plan, unitIndex: Option<nat>, ours: map<Path, Bytes>, world: set<Path>,
                    base: map<Path, Bytes>, moved: seq<Entry>, files: map<Path, Bytes>)
    requires Held(ours, world, plan.entries, base, moved) && |moved| < |plan.entries| && UnitMember(plan, |moved|)
    requires unitIndex.Some? ==> unitIndex.value >= 2 && DistinctUnitNames(plan)
    requires AttemptFor(plan, unitIndex)[|moved|].target in files
    ensures Passed(plan, Rank(unitIndex), files)
  {
    hide Image, Moves, UnitMember, DistinctUnitNames, SuffixCandidate, OriginalOf, DestinationNamed, UnitPrefix, SelfRace;
    var k := |moved|;
    assert plan.entries[k] in plan.entries;
    if unitIndex.Some? {
      RemappedAt(plan, unitIndex.value, k);
      SameNamesAt(plan, k);
      CandidateIsTheUnit(plan, unitIndex.value, k);
    }
  }

  // ---- the restart loop ------------------------------------------------------

  /** What the publication loop is entered with. */
  ghost predicate Ready(fs: FileSystem, plan: Plan, policy: Policy, unitRename: bool, base: map<Path, Bytes>)
    reads fs
  {
    && Holds(fs, plan.entries, base, [])
    && (unitRename ==> policy.Rename? && DistinctUnitNames(plan))
    && (policy.Overwrite? ==> fs.world == {} && Targets(plan.entries) !! base.Keys)
  }

  /** Why a promotion may stop: one of the intended targets exists, or an operation failed. */
  ghost predicate WhyStopped(present: set<Path>, policy: Policy, entries: seq<Entry>, error: Error, fs: FileSystem,
                             since: nat, until: nat)
  {
    match error
    case Collision(p) => policy.Fail? && p in Targets(entries) && p in present
    case SkippedFor(p) => policy.Skip? && p in Targets(entries) && p in present
    case Fault => fs.FaultBetween(since, until)
    case _ => false
  }

  ghost predicate StopReason(fs: FileSystem, policy: Policy, entries: seq<Entry>, error: Error, since: nat)
    reads fs
  {
    WhyStopped(fs.files.Keys, policy, entries, error, fs, since, fs.clock)
  }

  lemma StopReasonStays(fs: FileSystem, present: set<Path>, policy: Policy, entries: seq<Entry>, error: Error,
                        since: nat, until: nat)
    requires fs.Valid() && WhyStopped(present, policy, entries, error, fs, since, until)
    requires until <= fs.clock && present <= fs.ours.Keys + fs.born.Keys
    ensures StopReason(fs, policy, entries, error, since)
  {
  }

  /** A collision that stops the unit is still there after the rollback. */
  lemma StopsForReason(fs: FileSystem, plan: Plan, unitIndex: Option<nat>, policy: Policy, unitRename: bool,
                       base: map<Path, Bytes>, moved: seq<Entry>, longest: nat, error: Error, since: nat)
    requires Holds(fs, plan.entries, base, moved) && |moved| < |plan.entries|
    requires Landed(moved, AttemptFor(plan, unitIndex), plan, policy, unitRename, longest)
    requires unitIndex.Some? ==> policy.Rename?
    requires StopsFor(fs, policy, AttemptFor(plan, unitIndex)[|moved|].target, error, since)
    ensures WhyStopped(base.Keys + fs.born.Keys, policy, plan.entries, error, fs, since, fs.clock)
  {
    hide FileSystem.Valid, NumberedBy, UnitMember;
    if !error.Fault? {
      var p := plan.entries[|moved|].target;
      assert plan.entries[|moved|] in plan.entries && p in Targets(plan.entries);
      fs.WhereFrom(p);
      forall d | d in moved ensures d.target != p {
        var m := MovedIndex(d, moved, plan.entries);
      }
    }
  }

  lemma HeldNothing(ours: map<Path, Bytes>, world: set<Path>, entries: seq<Entry>, base: map<Path, Bytes>)
    requires Held(ours, world, entries, base, [])
    ensures ours == base && DistinctSources(entries) && SameNames(entries)
  {
    ImageOfNothing(ours, base);
  }

  lemma RoomIsShort(plan: Plan, base: map<Path, Bytes>, world: set<Path>, limit: nat)
    requires Limited(plan, base, world, limit)
    ensures ShortNames(base.Keys + world, limit)
  {
  }

  /** The first attempt: the intended names, or a free whole-unit suffix when one of them
      is taken already. */
  method FirstAttempt(fs: FileSystem, plan: Plan, policy: Policy, unitRename: bool, ghost base: map<Path, Bytes>,
                      ghost limit: nat)
    returns (unitIndex: Option<nat>)
    requires Ready(fs, plan, policy, unitRename, base) && Limited(plan, base, fs.world, limit)
    modifies fs
    ensures Ready(fs, plan, policy, unitRename, base) && old(fs.clock) <= fs.clock && Kept(old(fs.born), fs.born)
    ensures unitIndex.Some? ==> unitRename && unitIndex.value >= 2
    ensures unitRename && unitIndex.None? ==> forall p :: p in plan.Destinations() ==> p !in old(fs.files)
    ensures !unitRename ==> fs.clock == old(fs.clock)
    ensures AllPassed(plan, Rank(unitIndex), base + fs.born)
  {
    hide FileSystem.Valid, Image, StagedUnit, Moves, Limited, DistinctUnitNames, SameNames, DistinctSources, ShortNames,
         AllBlocked, Blocked, Passed;
    HeldNothing(fs.ours, fs.world, plan.entries, base);
    RoomIsShort(plan, base, fs.world, limit);
    unitIndex := None;
    if unitRename {
      var hit := FirstExisting(fs, plan.Destinations());
      if hit.Some? {
        hide AllPassed;
        fs.SplitsByOwner();
        FirstPassed(plan, hit.value, fs.files);
        ghost var files := fs.files;
        var index, attempt := ApplyUnitRename(fs, plan, 2, limit);
        fs.SplitsByOwner();
        PassedSoFar(plan, 2, index, files, fs.files);
        unitIndex := Some(index);
      }
    }
  }

  /** A raced suffix: move everything back and find the next free index. */
  method RestartUnit(fs: FileSystem, plan: Plan, policy: Policy, unitIndex: Option<nat>, moved: seq<Entry>,
                     ghost base: map<Path, Bytes>, ghost limit: nat)
    returns (index: nat)
    requires Holds(fs, plan.entries, base, moved) && DistinctUnitNames(plan) && policy.Rename?
    requires Limited(plan, base, fs.world, limit)
    requires (unitIndex.Some? ==> unitIndex.value >= 2) && AllPassed(plan, Rank(unitIndex) + 1, base + fs.born)
    modifies fs
    ensures Ready(fs, plan, policy, true, base) && old(fs.clock) <= fs.clock && Kept(old(fs.born), fs.born)
    ensures index >= if unitIndex.None? then 2 else unitIndex.value + 1
    ensures AllPassed(plan, index, base + fs.born)
  {
    hide FileSystem.Valid, Image, StagedUnit, Moves, Limited, DistinctUnitNames, SameNames, DistinctSources, ShortNames,
         AllBlocked, Blocked, AllPassed;
    UndoMoves(fs, moved, plan.entries, base);
    HeldNothing(fs.ours, fs.world, plan.entries, base);
    RoomIsShort(plan, base, fs.world, limit);
    var attempt;
    index, attempt := ApplyUnitRename(fs, plan, if unitIndex.None? then 2 else unitIndex.value + 1, limit);
    fs.SplitsByOwner();
    BornGrows(base, old(fs.born), fs.born);
    PassedSoFar(plan, Rank(unitIndex) + 1, index, base + old(fs.born), base + fs.born);
  }

  /** `while True:` around the attempts, until one neither races nor stops. */
  method PublishUnit(fs: FileSystem, plan: Plan, policy: Policy, unitRename: bool, ghost base: map<Path, Bytes>)
    returns (moved: seq<Entry>, error: Option<Error>, unitIndex: Option<nat>)
    requires Ready(fs, plan, policy, unitRename, base)
    modifies fs
    ensures Holds(fs, plan.entries, base, moved) && old(fs.clock) <= fs.clock && Kept(old(fs.born), fs.born)
    ensures unitIndex.Some? ==> unitRename && unitIndex.value >= 2
    ensures AllPassed(plan, Rank(unitIndex), base + fs.born)
    ensures error.None? ==> |moved| == |plan.entries|
    ensures Landed(moved, AttemptFor(plan, unitIndex), plan, policy, unitRename,
                   Longest(fs.world, base, |plan.entries|))
    ensures policy.Overwrite? && error.None? && plan.entries != [] ==> !fs.schedule(old(fs.clock) + 2).fault
    ensures error.Some? ==>
      |moved| < |plan.entries|
      && StopsFor(fs, policy, AttemptFor(plan, unitIndex)[|moved|].target, error.value, old(fs.clock))
  {
    hide FileSystem.Valid, Held, Landed, StopsFor, Longest, UnitMember, Limited, DistinctUnitNames, SameNames,
         Targets, Aims, AllPassed, Passed;
    ghost var limit := LimitOf(plan, base, fs.world);
    ghost var bound := Pow10(limit + Longest(fs.world, base, |plan.entries|));
    ReadyNames(fs, plan, policy, unitRename, base);
    unitIndex := FirstAttempt(fs, plan, policy, unitRename, base, limit);
    ghost var at := Rank(unitIndex);
    while true
      invariant Ready(fs, plan, policy, unitRename, base)
      invariant old(fs.clock) <= fs.clock && Kept(old(fs.born), fs.born)
      invariant policy.Overwrite? ==> fs.clock == old(fs.clock)
      invariant unitIndex.Some? ==> unitRename && unitIndex.value >= 2
      invariant at == Rank(unitIndex) && AllPassed(plan, at, base + fs.born)
      decreases if at <= bound then bound + 1 - at else 0
    {
      AttemptAims(plan, unitIndex);
      ghost var since, born := fs.clock, fs.born;
      var status;
      moved, status := PublishAttempt(fs, plan, AttemptFor(plan, unitIndex), policy, unitRename, base);
      BornGrows(base, born, fs.born);
      PassedGrows(plan, at, base + born, base + fs.born);
      if status.AllMoved? {
        error := None;
        break;
      }
      if status.Stopped? {
        LaterStop(fs, policy, AttemptFor(plan, unitIndex)[|moved|].target, status.error, since, old(fs.clock));
        error := Some(status.error);
        break;
      }
      if unitIndex.Some? {
        RaceBounds(fs, plan, unitIndex.value, base, moved, limit);
      }
      RacePassed(fs, plan, unitIndex, base, moved, Longest(fs.world, base, |plan.entries|));
      OneMorePassed(plan, at, base + fs.born);
      var index := RestartUnit(fs, plan, policy, unitIndex, moved, base, limit);
      unitIndex, at := Some(index), index;
    }
  }

  lemma OneMorePassed(plan: Plan, index: nat, files: map<Path, Bytes>)
    requires AllPassed(plan, index, files) && Passed(plan, index, files)
    ensures AllPassed(plan, index + 1, files)
  {
    hide Passed;
  }

  lemma ReadyNames(fs: FileSystem, plan: Plan, policy: Policy, unitRename: bool, base: map<Path, Bytes>)
    requires Ready(fs, plan, policy, unitRename, base)
    ensures SameNames(plan.entries)
  {
    HeldNothing(fs.ours, fs.world, plan.entries, base);
  }

  lemma RaceBounds(fs: FileSystem, plan: Plan, index: nat, base: map<Path, Bytes>, moved: seq<Entry>, limit: nat)
    requires Holds(fs, plan.entries, base, moved) && DistinctUnitNames(plan)
    requires |moved| < |plan.entries| && UnitMember(plan, |moved|)
    requires Landed(moved, plan.Remap(index), plan, Rename, true, Longest(fs.world, base, |plan.entries|))
    requires Limited(plan, base, fs.world, limit)
    requires plan.Remap(index)[|moved|].target in fs.files
    ensures index < Pow10(limit + Longest(fs.world, base, |plan.entries|))
  {
    hide FileSystem.Valid, Held, DistinctUnitNames, UnitMember, Landed, Limited, Longest;
    fs.WhereFrom(plan.Remap(index)[|moved|].target);
    RaceBoundsIndex(plan, index, fs.ours, base, fs.world, moved, limit, Longest(fs.world, base, |plan.entries|));
  }

  // ---- overwrite: backups ----------------------------------------------------

  /** `_overwrite_backup_path` */
  function Backup(target: Path): (b: Path)
    ensures b.dir == target.dir
  {
    Path(target.dir, "." + target.name + ".uvr-overwrite.bak")
  }

  lemma BackupInjective(p: Path, q: Path)
    requires Backup(p) == Backup(q)
    ensures p == q
  {
    var x := Backup(p).name;
    assert p.name == x[1..|x| - 18] == q.name;
  }

  predicate NoBackupIsStaged(entries: seq<Entry>) {
    forall d, e :: d in entries && e in entries ==> Backup(d.target) != e.target
  }

  /** The backup paths in use: those of the targets that exist. */
  function UsedBackups(files: map<Path, Bytes>, entries: seq<Entry>): set<Path> {
    set e | e in entries && e.target in files :: Backup(e.target)
  }

  function ExistingTargets(files: map<Path, Bytes>, entries: seq<Entry>): set<Path> {
    set e | e in entries && e.target in files :: e.target
  }

  ghost predicate BackupsOf(backups: seq<Entry>, files: map<Path, Bytes>, entries: seq<Entry>) {
    && (forall b :: b in backups ==> b.target == Backup(b.source))
    && (forall i, j :: 0 <= i < j < |backups| ==> backups[i].source != backups[j].source)
    && Sources(backups) == ExistingTargets(files, entries)
  }

  lemma BackupTargets(backups: seq<Entry>, files: map<Path, Bytes>, entries: seq<Entry>)
    requires BackupsOf(backups, files, entries)
    ensures Targets(backups) == UsedBackups(files, entries)
  {
    forall p | p in UsedBackups(files, entries) ensures p in Targets(backups) {
      var e :| e in entries && e.target in files && Backup(e.target) == p;
      assert e.target in ExistingTargets(files, entries);
      var b :| b in backups && b.source == e.target;
    }
    forall p | p in Targets(backups) ensures p in UsedBackups(files, entries) {
      var b :| b in backups && b.target == p;
      assert b.source in ExistingTargets(files, entries);
    }
  }

  /** Paths nothing was moved to or from can be left out of the picture. */
  lemma ImageForgets(files: map<Path, Bytes>, base: map<Path, Bytes>, moved: seq<Entry>, paths: set<Path>)
    requires Image(files, base, moved) && paths !! Sources(moved) && paths !! Targets(moved)
    ensures Image(files - paths, base - paths, moved)
  {
    forall k | 0 <= k < |moved| ensures moved[k].target !in paths && moved[k].source !in paths {
      assert moved[k] in moved;
    }
  }

  /** Moving onto a path loses what it held; everything else is as for a free path. */
  lemma ImageOverwrites(files: map<Path, Bytes>, base: map<Path, Bytes>, moved: seq<Entry>, e: Entry)
    requires Image(files, base - Targets(moved), moved)
    requires e.source in base && e.source !in Sources(moved) && e.source !in Targets(moved)
    requires e.target !in Sources(moved) && e.target !in Targets(moved) && e.source != e.target
    ensures e.source in files
    ensures Image(FileSystem.Relocated(files, e.source, e.target), base - Targets(moved + [e]), moved + [e])
  {
    hide Image, Sources;
    UnmovedStays(files, base - Targets(moved), moved, e.source);
    ImageForgets(files, base - Targets(moved), moved, {e.target});
    ImageMoves(files - {e.target}, base - Targets(moved) - {e.target}, moved, e);
    assert FileSystem.Relocated(files, e.source, e.target)
      == (files - {e.target} - {e.source})[e.target := files[e.source]];
    PathsExtend(moved, e);
    assert base - Targets(moved + [e]) == base - Targets(moved) - {e.target};
  }

  lemma BackupsAreApart(base: map<Path, Bytes>, entries: seq<Entry>, n: nat, backups: seq<Entry>)
    requires n < |entries| && NoBackupIsStaged(entries)
    requires forall i, j :: 0 <= i < j < |entries| ==> entries[i].target != entries[j].target
    requires BackupsOf(backups, base, entries[..n])
    ensures var t := entries[n].target;
            && t !in Sources(backups) && t !in Targets(backups) && t != Backup(t)
            && Backup(t) !in Sources(backups) && Backup(t) !in Targets(backups)
  {
    var t := entries[n].target;
    assert entries[n] in entries;
    forall b | b in backups ensures b.source != t && b.target != t && b.target != Backup(t) && b.source != Backup(t) {
      assert b.source in ExistingTargets(base, entries[..n]);
      var e :| e in entries[..n] && e.target == b.source;
      var i :| 0 <= i < n && entries[i] == e;
      assert e in entries;
      if b.target == Backup(t) {
        BackupInjective(b.source, t);
      }
    }
  }

  lemma ExistingTargetsExtend(base: map<Path, Bytes>, entries: seq<Entry>, n: nat)
    requires n < |entries|
    ensures ExistingTargets(base, entries[..n + 1])
         == ExistingTargets(base, entries[..n]) + if entries[n].target in base then {entries[n].target} else {}
  {
    assert forall e :: e in entries[..n + 1] <==> e in entries[..n] || e == entries[n];
  }

  lemma BackupsExtend(base: map<Path, Bytes>, entries: seq<Entry>, n: nat, backups: seq<Entry>)
    requires n < |entries| && BackupsOf(backups, base, entries[..n]) && entries[n].target !in Sources(backups)
    ensures var t := entries[n].target;
            BackupsOf(if t in base then backups + [Entry(t, Backup(t))] else backups, base, entries[..n + 1])
  {
    hide Backup, ExistingTargets;
    var t := entries[n].target;
    ExistingTargetsExtend(base, entries, n);
    if t in base {
      var all := backups + [Entry(t, Backup(t))];
      assert forall b :: b in all <==> b in backups || b == Entry(t, Backup(t));
      assert Sources(all) == Sources(backups) + {t};
      forall i, j | 0 <= i < j < |all| ensures all[i].source != all[j].source {
        assert all[i] in backups;
      }
    }
  }

  lemma BackUpNext(ours: map<Path, Bytes>, base: map<Path, Bytes>, entries: seq<Entry>, n: nat, backups: seq<Entry>)
    requires n < |entries| && NoBackupIsStaged(entries)
    requires forall i, j :: 0 <= i < j < |entries| ==> entries[i].target != entries[j].target
    requires BackupsOf(backups, base, entries[..n]) && Image(ours, base - Targets(backups), backups)
    ensures var t := entries[n].target;
            && (t in ours <==> t in base)
            && (t !in base ==> BackupsOf(backups, base, entries[..n + 1]))
            && (t in base ==>
                  var all := backups + [Entry(t, Backup(t))];
                  && t != Backup(t)
                  && BackupsOf(all, base, entries[..n + 1])
                  && Image(FileSystem.Relocated(ours, t, Backup(t)), base - Targets(all), all))
  {
    hide Backup, BackupsOf, Sources, Targets, NoBackupIsStaged;
    var t := entries[n].target;
    BackupsAreApart(base, entries, n, backups);
    BackupsExtend(base, entries, n, backups);
    if t in base {
      hide Image;
      UnmovedStays(ours, base - Targets(backups), backups, t);
      ImageOverwrites(ours, base, backups, Entry(t, Backup(t)));
    }
  }

  lemma NobodyElse(fs: FileSystem)
    requires fs.Valid() && fs.world == {}
    ensures fs.files == fs.ours && fs.born == map[]
  {
    assert fs.born.Keys == {};
  }

  /** Move one target aside if it exists. */
  method BackUpOne(fs: FileSystem, entries: seq<Entry>, n: nat, backups: seq<Entry>, ghost base: map<Path, Bytes>)
    returns (ok: bool, all: seq<Entry>)
    requires fs.Valid() && fs.world == {} && NoBackupIsStaged(entries) && n < |entries|
    requires forall i, j :: 0 <= i < j < |entries| ==> entries[i].target != entries[j].target
    requires BackupsOf(backups, base, entries[..n]) && Image(fs.ours, base - Targets(backups), backups)
    modifies fs
    ensures fs.Valid() && Kept(old(fs.born), fs.born)
    ensures if ok then BackupsOf(all, base, entries[..n + 1]) else all == backups && fs.schedule(old(fs.clock) + 1).fault
    ensures Image(fs.ours, base - Targets(all), all)
    ensures |backups| <= |all| <= |backups| + 1
    ensures fs.clock == old(fs.clock) + if ok then 1 + |all| - |backups| else 2
  {
    hide FileSystem.Valid, Backup, BackupsOf, Image, NoBackupIsStaged, Targets;
    BackUpNext(fs.ours, base, entries, n, backups);
    var target := entries[n].target;
    var present := fs.Lexists(target);
    NobodyElse(fs);
    ok, all := true, backups;
    if present {
      ok := fs.Replace(target, Backup(target));
      all := if ok then backups + [Entry(target, Backup(target))] else backups;
    }
  }

  /** Move every existing target to its backup path. */
  method BackUp(fs: FileSystem, entries: seq<Entry>) returns (backups: seq<Entry>, ok: bool, ghost done: nat)
    requires fs.Valid() && fs.world == {} && NoBackupIsStaged(entries)
    requires forall i, j :: 0 <= i < j < |entries| ==> entries[i].target != entries[j].target
    modifies fs
    ensures fs.Valid() && old(fs.clock) <= fs.clock && done <= |entries| && Kept(old(fs.born), fs.born)
    ensures BackupsOf(backups, old(fs.ours), entries[..done])
    ensures Image(fs.ours, old(fs.ours) - Targets(backups), backups)
    ensures ok ==> done == |entries| && fs.clock == old(fs.clock) + |entries| + |backups|
    ensures !ok ==> done < |entries| && fs.FaultBetween(old(fs.clock), fs.clock)
    ensures fs.clock <= old(fs.clock) + 2 * |entries|
  {
    hide FileSystem.Valid, Backup, BackupsOf, Image, NoBackupIsStaged, Targets;
    var n := 0;
    backups, ok, done := [], true, 0;
    NothingBackedUp(fs.ours, entries);
    while n < |entries|
      invariant fs.Valid() && done == n <= |entries| && ok && Kept(old(fs.born), fs.born)
      invariant |backups| <= n && fs.clock == old(fs.clock) + n + |backups|
      invariant BackupsOf(backups, old(fs.ours), entries[..done])
      invariant Image(fs.ours, old(fs.ours) - Targets(backups), backups)
    {
      ok, backups := BackUpOne(fs, entries, n, backups, old(fs.ours));
      if !ok {
        break;
      }
      n := n + 1;
      done := n;
    }
  }

  lemma NothingBackedUp(ours: map<Path, Bytes>, entries: seq<Entry>)
    ensures BackupsOf([], ours, entries[..0])
    ensures Image(ours, ours - Targets([]), [])
  {
    assert Targets([]) == {} && Sources([]) == {};
    assert ours - {} == ours;
  }

  lemma {:induction false} BackupsCount(backups: seq<Entry>)
    requires forall i, j :: 0 <= i < j < |backups| ==> backups[i].source != backups[j].source
    ensures |Sources(backups)| == |backups|
  {
    if backups == [] {
      assert Sources(backups) == {};
    } else {
      var n := |backups| - 1;
      BackupsCount(backups[..n]);
      assert backups == backups[..n] + [backups[n]];
      PathsExtend(backups[..n], backups[n]);
      assert backups[n].source !in Sources(backups[..n]);
    }
  }

  /** The rollback of the backups, first one first. */
  method RestoreBackups(fs: FileSystem, backups: seq<Entry>, ghost base: map<Path, Bytes>, ghost entries: seq<Entry>)
    requires fs.Valid() && (backups == [] || (fs.world == {} && NoBackupIsStaged(entries)))
    requires BackupsOf(backups, base, entries)
    requires Image(fs.ours, base - Targets(backups), backups)
    modifies fs
    ensures fs.Valid() && old(fs.clock) <= fs.clock && Kept(old(fs.born), fs.born)
    ensures fs.ours == base - UsedBackups(base, entries)
  {
    hide FileSystem.Valid, Backup;
    ghost var below := base - Targets(backups);
    for k := 0 to |backups|
      invariant fs.Valid() && old(fs.clock) <= fs.clock && Kept(old(fs.born), fs.born)
      invariant Image(fs.ours, below, backups[k..])
    {
      hide Image, BackupsOf, NoBackupIsStaged;
      RestoreNext(fs.ours, base, entries, backups, k);
      var present := fs.Lexists(backups[k].target);
      NobodyElse(fs);
      if present {
        fs.MoveBack(backups[k].target, backups[k].source);
      }
    }
    assert backups[|backups|..] == [];
    ImageOfNothing(fs.ours, below);
    BackupTargets(backups, base, entries);
  }

  lemma RestoreNext(ours: map<Path, Bytes>, base: map<Path, Bytes>, entries: seq<Entry>, backups: seq<Entry>, k: nat)
    requires k < |backups| && NoBackupIsStaged(entries) && BackupsOf(backups, base, entries)
    requires Image(ours, base - Targets(backups), backups[k..])
    ensures var e := backups[k];
            && e.target in ours && e.source != e.target
            && Image(FileSystem.Relocated(ours, e.target, e.source), base - Targets(backups), backups[k + 1..])
  {
    hide Image, BackupsOf, NoBackupIsStaged, Backup;
    var e, rest := backups[k], backups[k + 1..];
    assert backups[k..] == [e] + rest;
    assert e in backups && e.target in Targets(backups);
    LaterBackupsAreApart(base, entries, backups, k);
    ImageUndone(ours, base - Targets(backups), rest, e, backups[k..]);
  }

  lemma LaterBackupsAreApart(base: map<Path, Bytes>, entries: seq<Entry>, backups: seq<Entry>, k: nat)
    requires k < |backups| && NoBackupIsStaged(entries) && BackupsOf(backups, base, entries)
    ensures var e, rest := backups[k], backups[k + 1..];
            && e.source != e.target && e.target !in Targets(rest)
            && e.source !in Sources(rest) && e.source !in Targets(rest)
  {
    var e, rest := backups[k], backups[k + 1..];
    BackupSourceStaged(backups, base, entries, e);
    forall d | d in rest ensures d.source != e.source && d.target != e.target && d.target != e.source {
      var i :| 0 <= i < |rest| && rest[i] == d;
      assert d == backups[k + 1 + i] && d in backups;
      BackupSourceStaged(backups, base, entries, d);
      if d.target == e.target {
        BackupInjective(d.source, e.source);
      }
    }
  }

  lemma BackupSourceStaged(backups: seq<Entry>, base: map<Path, Bytes>, entries: seq<Entry>, b: Entry)
    requires BackupsOf(backups, base, entries) && b in backups && NoBackupIsStaged(entries)
    ensures exists e :: e in entries && e.target == b.source
    ensures forall e :: e in entries ==> b.target != e.target
    ensures forall c :: c in backups ==> b.target != c.source
  {
    forall c | c in backups ensures exists e :: e in entries && e.target == c.source {
      assert c.source in ExistingTargets(base, entries);
    }
  }

  /** The final loop: delete the backups of a published unit. */
  method DropBackups(fs: FileSystem, backups: seq<Entry>) returns (ok: bool, ghost dropped: nat)
    requires fs.Valid() && (backups == [] || fs.world == {})
    requires forall b :: b in backups ==> b.target in fs.ours
    requires forall i, j :: 0 <= i < j < |backups| ==> backups[i].target != backups[j].target
    modifies fs
    ensures fs.Valid() && old(fs.clock) <= fs.clock && Kept(old(fs.born), fs.born)
    ensures dropped <= |backups| && (ok <==> dropped == |backups|)
    ensures fs.ours == old(fs.ours) - Targets(backups[..dropped])
    ensures !ok ==> fs.FaultBetween(old(fs.clock), fs.clock)
  {
    hide FileSystem.Valid;
    var n := 0;
    ok, dropped := true, 0;
    assert Targets(backups[..0]) == {};
    while n < |backups|
      invariant fs.Valid() && old(fs.clock) <= fs.clock && Kept(old(fs.born), fs.born)
      invariant dropped == n <= |backups| && ok
      invariant fs.ours == old(fs.ours) - Targets(backups[..n])
    {
      hide Targets;
      var path := backups[n].target;
      NotYetDropped(backups, n);
      var present := fs.Lexists(path);
      NobodyElse(fs);
      if present {
        ok := fs.Unlink(path);
        if !ok {
          assert fs.schedule(fs.clock - 1).fault;
          break;
        }
      }
      n := n + 1;
      dropped := n;
    }
    assert backups[..|backups|] == backups;
  }

  lemma NotYetDropped(backups: seq<Entry>, n: nat)
    requires n < |backups|
    requires forall i, j :: 0 <= i < j < |backups| ==> backups[i].target != backups[j].target
    ensures backups[n].target !in Targets(backups[..n])
    ensures Targets(backups[..n + 1]) == Targets(backups[..n]) + {backups[n].target}
    ensures backups[n] in backups
  {
    assert backups[..n + 1] == backups[..n] + [backups[n]];
    assert forall b :: b in backups[..n + 1] <==> b in backups[..n] || b == backups[n];
  }

  // ---- the whole transaction -------------------------------------------------

  /** The state a successful promotion builds on: under `overwrite` the old targets and
      whatever stood at their backup paths are gone. */
  function Cleared(files: map<Path, Bytes>, entries: seq<Entry>, policy: Policy): map<Path, Bytes> {
    if policy.Overwrite? then files - Targets(entries) - UsedBackups(files, entries) else files
  }

  /** What the backup phase leaves for the publication phase. */
  lemma ClearedForUnit(ours: map<Path, Bytes>, base: map<Path, Bytes>, entries: seq<Entry>, world: set<Path>,
                       backups: seq<Entry>)
    requires StagedUnit(entries, base, world) && NoBackupIsStaged(entries)
    requires BackupsOf(backups, base, entries) && Image(ours, base - Targets(backups), backups)
    ensures StagedUnit(entries, ours, world) && Targets(entries) !! ours.Keys
    ensures forall e :: e in entries ==> ours[e.source] == base[e.source]
    ensures ours - Targets(backups) == base - Targets(entries) - UsedBackups(base, entries)
    ensures UsedBackups(base, entries) !! Sources(entries) + Targets(entries)
    ensures forall b :: b in backups ==> b.target in ours && b.source in base && ours[b.target] == base[b.source]
  {
    BackupTargets(backups, base, entries);
    forall e | e in entries ensures e.source !in Sources(backups) && e.source !in Targets(backups) {
      assert forall d :: d in entries ==> d.target in Targets(entries) && d.target.dir in OutDirs(entries);
      assert e.source.dir !in OutDirs(entries);
    }
    forall b | b in backups ensures b.target in ours && b.source in base && ours[b.target] == base[b.source] {
      var k :| 0 <= k < |backups| && backups[k] == b;
    }
  }

  /** The path a published file gets. With whole-unit renaming every unit file carries the
      same suffix index, or none does; any other file gets its name or a numbered variant, at its
      own target or, in a suffix attempt, at the last target with its basename. */
  ghost predicate NamedAt(target: Path, plan: Plan, k: nat, policy: Policy, unitRename: bool, unitIndex: Option<nat>)
    requires k < |plan.entries|
  {
    var own := plan.entries[k].target;
    && (!policy.Rename? ==> target == own)
    && (unitRename && UnitMember(plan, k) ==>
          target == if unitIndex.None? then own else WithUnitSuffix(own, plan.Base(), unitIndex.value, plan.member))
    && (!(unitRename && UnitMember(plan, k)) ==> NumberedVariant(Intended(plan, unitIndex, k), target))
  }

  ghost predicate Named(moved: seq<Entry>, plan: Plan, policy: Policy, unitRename: bool, unitIndex: Option<nat>) {
    && |moved| == |plan.entries|
    && (forall k :: 0 <= k < |moved| ==> moved[k].source == plan.entries[k].source)
    && (forall i, j :: 0 <= i < j < |moved| ==> moved[i].target != moved[j].target)
    && (forall k :: 0 <= k < |moved| ==> NamedAt(moved[k].target, plan, k, policy, unitRename, unitIndex))
  }

  lemma LandedAt(moved: seq<Entry>, attempt: seq<Entry>, plan: Plan, policy: Policy, unitRename: bool, longest: nat,
                 k: nat)
    requires |plan.entries| == |attempt| && k < |moved|
    requires Landed(moved, attempt, plan, policy, unitRename, longest)
    ensures k < |attempt|
    ensures (unitRename && UnitMember(plan, k)) || !policy.Rename? ==> moved[k].target == attempt[k].target
    ensures NumberedVariant(attempt[k].target, moved[k].target)
  {
  }

  lemma LandedIsNamedAt(moved: seq<Entry>, plan: Plan, policy: Policy, unitRename: bool, unitIndex: Option<nat>,
                        longest: nat, k: nat)
    requires SameNames(plan.entries) && k < |moved| == |plan.entries|
    requires unitIndex.Some? ==> unitRename && policy.Rename? && DistinctUnitNames(plan)
    requires Landed(moved, AttemptFor(plan, unitIndex), plan, policy, unitRename, longest)
    ensures NamedAt(moved[k].target, plan, k, policy, unitRename, unitIndex)
  {
    hide Landed, UnitMember, WithUnitSuffix, DistinctUnitNames, NumberedVariant, SameNames, OriginalOf, RemapEntry;
    LandedAt(moved, AttemptFor(plan, unitIndex), plan, policy, unitRename, longest, k);
    if unitIndex.Some? {
      RemappedAt(plan, unitIndex.value, k);
    }
  }

  lemma LandedIsNamed(ours: map<Path, Bytes>, world: set<Path>, base: map<Path, Bytes>, moved: seq<Entry>,
                      plan: Plan, policy: Policy, unitRename: bool, unitIndex: Option<nat>, longest: nat)
    requires Held(ours, world, plan.entries, base, moved) && |moved| == |plan.entries|
    requires unitIndex.Some? ==> unitRename && policy.Rename? && DistinctUnitNames(plan)
    requires Landed(moved, AttemptFor(plan, unitIndex), plan, policy, unitRename, longest)
    ensures Named(moved, plan, policy, unitRename, unitIndex)
  {
    hide Landed, DistinctUnitNames, Image, AttemptFor, SameNames, NamedAt;
    forall k | 0 <= k < |moved| ensures NamedAt(moved[k].target, plan, k, policy, unitRename, unitIndex) {
      LandedIsNamedAt(moved, plan, policy, unitRename, unitIndex, longest, k);
    }
  }

  /** Publish the whole unit, or put every moved file back. */
  method PublishOrUndo(fs: FileSystem, plan: Plan, policy: Policy, unitRename: bool)
    returns (moved: seq<Entry>, error: Option<Error>, unitIndex: Option<nat>)
    requires Ready(fs, plan, policy, unitRename, fs.ours)
    modifies fs
    ensures fs.Valid() && old(fs.clock) <= fs.clock && Kept(old(fs.born), fs.born)
    ensures error.Some? ==> fs.ours == old(fs.ours) && StopReason(fs, policy, plan.entries, error.value, old(fs.clock))
    ensures error.None? ==> Image(fs.ours, old(fs.ours), moved) && Named(moved, plan, policy, unitRename, unitIndex)
    ensures policy.Overwrite? && error.None? && plan.entries != [] ==> !fs.schedule(old(fs.clock) + 2).fault
    ensures error.None? ==> AllPassed(plan, Rank(unitIndex), old(fs.ours) + fs.born)
    ensures unitIndex.Some? ==> unitRename && unitIndex.value >= 2
  {
    hide AllPassed, FileSystem.Valid, StagedUnit, Image, Landed, StopReason, StopsFor, WhyStopped, Longest, Targets, Moves,
         Named;
    moved, error, unitIndex := PublishUnit(fs, plan, policy, unitRename, fs.ours);
    if error.None? {
      LandedIsNamed(fs.ours, fs.world, old(fs.ours), moved, plan, policy, unitRename, unitIndex,
                    Longest(fs.world, old(fs.ours), |plan.entries|));
    } else {
      StopsForReason(fs, plan, unitIndex, policy, unitRename, old(fs.ours), moved,
                     Longest(fs.world, old(fs.ours), |plan.entries|), error.value, old(fs.clock));
      ghost var present, until := old(fs.ours).Keys + fs.born.Keys, fs.clock;
      UndoMoves(fs, moved, plan.entries, old(fs.ours));
      HeldNothing(fs.ours, fs.world, plan.entries, old(fs.ours));
      StopReasonStays(fs, present, policy, plan.entries, error.value, old(fs.clock), until);
    }
  }

  /** The demands on the caller: a private staged unit; distinct basenames of the unit files when
      the unit is renamed as a whole; under `overwrite` no other writer and no staged file named like
      another's backup. */
  ghost predicate Admissible(fs: FileSystem, plan: Plan, policy: Policy, unitRename: bool)
    reads fs
  {
    && fs.Valid()
    && StagedUnit(plan.entries, fs.ours, fs.world)
    && (unitRename ==> policy.Rename? && DistinctUnitNames(plan))
    && (policy.Overwrite? ==> fs.world == {} && NoBackupIsStaged(plan.entries))
  }

  lemma NothingMoved(ours: map<Path, Bytes>, entries: seq<Entry>, world: set<Path>)
    requires StagedUnit(entries, ours, world)
    ensures Held(ours, world, entries, ours, [])
  {
    assert Sources([]) == {} && Targets([]) == {};
  }

  /** The backup phase, which only `overwrite` has. */
  method Prepare(fs: FileSystem, plan: Plan, policy: Policy, unitRename: bool)
    returns (backups: seq<Entry>, ok: bool, ghost reached: nat)
    requires Admissible(fs, plan, policy, unitRename)
    modifies fs
    ensures fs.Valid() && old(fs.clock) <= fs.clock && Kept(old(fs.born), fs.born)
    ensures reached <= |plan.entries| && BackupsOf(backups, old(fs.ours), plan.entries[..reached])
    ensures Image(fs.ours, old(fs.ours) - Targets(backups), backups)
    ensures if policy.Overwrite? then ok ==> reached == |plan.entries| else ok && reached == 0 && backups == []
    ensures ok ==> Ready(fs, plan, policy, unitRename, fs.ours)
    ensures !ok ==> reached < |plan.entries| && fs.FaultBetween(old(fs.clock), fs.clock)
    ensures policy.Overwrite? ==> fs.clock <= old(fs.clock) + 2 * |plan.entries|
    ensures policy.Overwrite? && ok ==>
      fs.clock == old(fs.clock) + |plan.entries| + |ExistingTargets(old(fs.ours), plan.entries)|
  {
    hide FileSystem.Valid, StagedUnit, Image, BackupsOf, Targets, NoBackupIsStaged, DistinctUnitNames;
    backups, ok, reached := [], true, 0;
    NothingBackedUp(fs.ours, plan.entries);
    if policy == Overwrite {
      StagedTargets(plan.entries, fs.ours, fs.world);
      backups, ok, reached := BackUp(fs, plan.entries);
      if ok {
        assert plan.entries[..reached] == plan.entries;
        CountExisting(backups, old(fs.ours), plan.entries);
        ClearedForUnit(fs.ours, old(fs.ours), plan.entries, fs.world, backups);
      }
    } else {
      ImageOfNothing(fs.ours, fs.ours - Targets([]));
    }
    if ok {
      NothingMoved(fs.ours, plan.entries, fs.world);
    }
  }

  lemma CountExisting(backups: seq<Entry>, files: map<Path, Bytes>, entries: seq<Entry>)
    requires BackupsOf(backups, files, entries)
    ensures |backups| == |ExistingTargets(files, entries)|
  {
    BackupsCount(backups);
  }

  lemma StagedTargets(entries: seq<Entry>, files: map<Path, Bytes>, world: set<Path>)
    requires StagedUnit(entries, files, world)
    ensures forall i, j :: 0 <= i < j < |entries| ==> entries[i].target != entries[j].target
  {
  }

  /** A published unit whose backups were not all deleted: everything else is as after a
      success, and each backup still there holds its target's old bytes. */
  ghost predicate Stranded(ours: map<Path, Bytes>, base: map<Path, Bytes>, entries: seq<Entry>, moved: seq<Entry>) {
    && Image(ours - UsedBackups(base, entries), Cleared(base, entries, Overwrite), moved)
    && (exists p :: p in UsedBackups(base, entries) && p in ours)
    && (forall p :: p in UsedBackups(base, entries) && p in ours ==>
          exists e :: e in entries && e.target in base && p == Backup(e.target) && ours[p] == base[e.target])
  }

  lemma PublishedOver(ours: map<Path, Bytes>, cleared: map<Path, Bytes>, base: map<Path, Bytes>, plan: Plan,
                      world: set<Path>, backups: seq<Entry>, moved: seq<Entry>)
    requires StagedUnit(plan.entries, base, world) && NoBackupIsStaged(plan.entries)
    requires BackupsOf(backups, base, plan.entries) && Image(cleared, base - Targets(backups), backups)
    requires Image(ours, cleared, moved) && |moved| == |plan.entries|
    requires forall k :: 0 <= k < |moved| ==> moved[k] == plan.entries[k]
    ensures Image(ours - Targets(backups), Cleared(base, plan.entries, Overwrite), moved)
    ensures Targets(backups) == UsedBackups(base, plan.entries)
    ensures forall b :: b in backups ==> b.target in ours && b.source in base && ours[b.target] == base[b.source]
    ensures forall i, j :: 0 <= i < j < |backups| ==> backups[i].target != backups[j].target
  {
    hide Image, StagedUnit;
    ClearedForUnit(cleared, base, plan.entries, world, backups);
    BackupTargets(backups, base, plan.entries);
    assert moved == plan.entries;
    ImageForgets(ours, cleared, moved, Targets(backups));
    forall b | b in backups ensures b.target in ours && ours[b.target] == base[b.source] {
      assert b.target in Targets(backups);
      UnmovedStays(ours, cleared, moved, b.target);
    }
    forall i, j | 0 <= i < j < |backups| ensures backups[i].target != backups[j].target {
      if backups[i].target == backups[j].target {
        BackupInjective(backups[i].source, backups[j].source);
      }
    }
  }

  lemma BackupsLeft(ours: map<Path, Bytes>, base: map<Path, Bytes>, entries: seq<Entry>, moved: seq<Entry>,
                    backups: seq<Entry>, dropped: nat)
    requires BackupsOf(backups, base, entries) && dropped < |backups|
    requires Image(ours - Targets(backups), Cleared(base, entries, Overwrite), moved)
    requires Targets(backups) == UsedBackups(base, entries)
    requires forall b :: b in backups ==> b.target in ours && b.source in base && ours[b.target] == base[b.source]
    requires forall i, j :: 0 <= i < j < |backups| ==> backups[i].target != backups[j].target
    ensures Stranded(ours - Targets(backups[..dropped]), base, entries, moved)
  {
    hide Image, Cleared, Backup;
    var left := ours - Targets(backups[..dropped]);
    assert Targets(backups[..dropped]) <= Targets(backups) by {
      assert forall b :: b in backups[..dropped] ==> b in backups;
    }
    assert left - UsedBackups(base, entries) == ours - Targets(backups);
    NotYetDropped(backups, dropped);
    assert backups[dropped].target in UsedBackups(base, entries) && backups[dropped].target in left;
    forall p | p in UsedBackups(base, entries) && p in left
      ensures exists e :: e in entries && e.target in base && p == Backup(e.target) && left[p] == base[e.target]
    {
      var b :| b in backups && b.target == p;
      assert b.source in ExistingTargets(base, entries);
      var e :| e in entries && e.target in base && e.target == b.source;
      assert p == Backup(e.target) && left[p] == base[e.target];
    }
  }

  /** The final loop as a whole. */
  method Finish(fs: FileSystem, plan: Plan, policy: Policy, backups: seq<Entry>, moved: seq<Entry>,
                ghost base: map<Path, Bytes>, ghost cleared: map<Path, Bytes>)
    returns (ok: bool)
    requires fs.Valid() && Image(fs.ours, cleared, moved)
    requires Image(cleared, base - Targets(backups), backups)
    requires if policy.Overwrite?
             then fs.world == {} && StagedUnit(plan.entries, base, fs.world) && NoBackupIsStaged(plan.entries)
                  && BackupsOf(backups, base, plan.entries)
                  && |moved| == |plan.entries| && (forall k :: 0 <= k < |moved| ==> moved[k] == plan.entries[k])
             else backups == []
    modifies fs
    ensures fs.Valid() && old(fs.clock) <= fs.clock && Kept(old(fs.born), fs.born)
    ensures ok ==> Image(fs.ours, Cleared(base, plan.entries, policy), moved)
    ensures !ok ==> policy.Overwrite? && fs.FaultBetween(old(fs.clock), fs.clock)
                    && Stranded(fs.ours, base, plan.entries, moved)
  {
    hide FileSystem.Valid, StagedUnit, Image, BackupsOf, Targets, UsedBackups, NoBackupIsStaged, Stranded;
    if policy == Overwrite {
      PublishedOver(fs.ours, cleared, base, plan, fs.world, backups, moved);
    } else {
      NoBackups(cleared, base);
    }
    ghost var dropped;
    ok, dropped := DropBackups(fs, backups);
    if !ok {
      BackupsLeft(old(fs.ours), base, plan.entries, moved, backups, dropped);
    } else {
      assert backups[..dropped] == backups;
      NoBackups(old(fs.ours), old(fs.ours));
    }
  }

  lemma NoBackups(cleared: map<Path, Bytes>, base: map<Path, Bytes>)
    ensures Image(cleared, base - Targets([]), []) ==> cleared == base
    ensures cleared - Targets([]) == cleared
  {
    assert Targets([]) == {} && base - {} == base && cleared - {} == cleared;
    if Image(cleared, base, []) {
      ImageOfNothing(cleared, base);
    }
  }

  function Paths(moved: seq<Entry>): (r: seq<Path>)
    ensures |r| == |moved|
  {
    seq(|moved|, k requires 0 <= k < |moved| => moved[k].target)
  }

  /** Everything a promotion may leave behind. `before` and `ours` leave out what other
      writers created; `reached` counts the files whose targets were backed up. */
  ghost predicate Settles(outcome: Outcome, before: map<Path, Bytes>, ours: map<Path, Bytes>, plan: Plan,
                          policy: Policy, unitRename: bool, moved: seq<Entry>, unitIndex: Option<nat>, reached: nat)
  {
    && reached <= |plan.entries| && (policy.Overwrite? || reached == 0)
    && (match outcome
        case Published(paths) =>
          && paths == Paths(moved)
          && Named(moved, plan, policy, unitRename, unitIndex)
          && Image(ours, Cleared(before, plan.entries, policy), moved)
        case Raised(CleanupFault) =>
          && policy.Overwrite?
          && Named(moved, plan, policy, unitRename, unitIndex)
          && Stranded(ours, before, plan.entries, moved)
        case Raised(_) => ours == before - UsedBackups(before, plan.entries[..reached]))
  }

  lemma NamedAsPlanned(moved: seq<Entry>, plan: Plan, policy: Policy, unitRename: bool, unitIndex: Option<nat>)
    requires Named(moved, plan, policy, unitRename, unitIndex) && !policy.Rename?
    ensures |moved| == |plan.entries| && forall k :: 0 <= k < |moved| ==> moved[k] == plan.entries[k]
  {
  }

  /** The rollback of the backups, after which the reason still stands. */
  method Abort(fs: FileSystem, plan: Plan, policy: Policy, backups: seq<Entry>, error: Error,
               ghost base: map<Path, Bytes>, ghost reached: nat, ghost since: nat)
    requires fs.Valid() && reached <= |plan.entries| && BackupsOf(backups, base, plan.entries[..reached])
    requires Image(fs.ours, base - Targets(backups), backups)
    requires if policy.Overwrite? then fs.world == {} && NoBackupIsStaged(plan.entries) else backups == []
    requires StopReason(fs, policy, plan.entries, error, since)
    modifies fs
    ensures fs.Valid() && old(fs.clock) <= fs.clock && Kept(old(fs.born), fs.born)
    ensures fs.ours == base - UsedBackups(base, plan.entries[..reached])
    ensures StopReason(fs, policy, plan.entries, error, since)
  {
    hide FileSystem.Valid, Image, BackupsOf, Targets, UsedBackups, Backup;
    ghost var present, until := if policy == Overwrite then {} else fs.files.Keys, fs.clock;
    assert WhyStopped(present, policy, plan.entries, error, fs, since, until);
    if policy != Overwrite {
      NoBackups(fs.ours, base);
      RestoresNothing(base, plan.entries, reached);
      fs.OwnersOfFiles();
    }
    RestoreBackups(fs, backups, base, plan.entries[..reached]);
    StopReasonStays(fs, present, policy, plan.entries, error, since, until);
  }

  lemma RestoresNothing(base: map<Path, Bytes>, entries: seq<Entry>, reached: nat)
    requires reached <= |entries| && BackupsOf([], base, entries[..reached])
    ensures base - UsedBackups(base, entries[..reached]) == base
  {
    BackupTargets([], base, entries[..reached]);
    assert Targets([]) == {} && base - {} == base;
  }

  predicate IsPublished(outcome: Outcome) {
    outcome.Published? || outcome == Raised(CleanupFault)
  }

  /** Which operations decide about an overwriting promotion that began at tick `start`: the
      backups come first, and the first staged file is moved two ticks after the last one. */
  ghost predicate DecidedBy(fs: FileSystem, outcome: Outcome, before: map<Path, Bytes>, entries: seq<Entry>, start: nat,
                            reached: nat)
  {
    && (reached < |entries| ==> fs.FaultBetween(start, start + 2 * |entries|))
    && (entries != [] && IsPublished(outcome) ==>
          !fs.schedule(start + |entries| + |ExistingTargets(before, entries)| + 2).fault)
  }

  /** What a prepared promotion may still do. */
  method PublishPrepared(fs: FileSystem, plan: Plan, policy: Policy, unitRename: bool, backups: seq<Entry>,
                         ghost base: map<Path, Bytes>, ghost reached: nat, ghost since: nat)
    returns (outcome: Outcome, moved: seq<Entry>, ghost unitIndex: Option<nat>)
    requires Ready(fs, plan, policy, unitRename, fs.ours) && StagedUnit(plan.entries, base, fs.world)
    requires reached <= |plan.entries| && BackupsOf(backups, base, plan.entries[..reached])
    requires Image(fs.ours, base - Targets(backups), backups)
    requires if policy.Overwrite? then fs.world == {} && NoBackupIsStaged(plan.entries) && reached == |plan.entries|
             else backups == [] && reached == 0
    requires since <= fs.clock
    modifies fs
    ensures fs.Valid() && old(fs.clock) <= fs.clock && Kept(old(fs.born), fs.born)
    ensures Settles(outcome, base, fs.ours, plan, policy, unitRename, moved, unitIndex, reached)
    ensures outcome.Raised? && !outcome.error.CleanupFault? ==>
      StopReason(fs, policy, plan.entries, outcome.error, since)
    ensures outcome == Raised(CleanupFault) ==> fs.FaultBetween(since, fs.clock)
    ensures unitIndex.Some? ==> unitRename && policy.Rename? && unitIndex.value >= 2
    ensures policy.Overwrite? && plan.entries != [] && IsPublished(outcome) ==> !fs.schedule(old(fs.clock) + 2).fault
    ensures outcome.Published? && unitIndex.Some? ==> AllPassed(plan, unitIndex.value, base + fs.born)
  {
    hide AllPassed, FileSystem.Valid, Held, StagedUnit, Image, BackupsOf, Targets, UsedBackups, NoBackupIsStaged, Named,
         Cleared, DistinctUnitNames, Stranded;
    var error;
    moved, error, unitIndex := PublishOrUndo(fs, plan, policy, unitRename);
    if error.Some? {
      hide WhyStopped;
      EarlierReason(fs, policy, plan.entries, error.value, old(fs.clock), since);
      Abort(fs, plan, policy, backups, error.value, base, reached, since);
      outcome := Raised(error.value);
    } else {
      hide WhyStopped;
      assert plan.entries[..|plan.entries|] == plan.entries;
      if policy != Rename {
        NamedAsPlanned(moved, plan, policy, unitRename, unitIndex);
      }
      ghost var born := fs.born;
      if policy == Rename {
        NoBackups(old(fs.ours), base);
      }
      var ok := Finish(fs, plan, policy, backups, moved, base, old(fs.ours));
      if unitIndex.Some? {
        BornGrows(base, born, fs.born);
        PassedGrows(plan, unitIndex.value, base + born, base + fs.born);
      }
      outcome := if ok then Published(Paths(moved)) else Raised(CleanupFault);
    }
  }

  lemma EarlierReason(fs: FileSystem, policy: Policy, entries: seq<Entry>, error: Error, since: nat, earlier: nat)
    requires StopReason(fs, policy, entries, error, since) && earlier <= since
    ensures StopReason(fs, policy, entries, error, earlier) && !error.CleanupFault? && !error.UnexpectedOutput?
  {
  }

  /** The `try` block with its rollback, and the final cleanup. */
  method Transact(fs: FileSystem, plan: Plan, policy: Policy, unitRename: bool)
    returns (outcome: Outcome, moved: seq<Entry>, ghost unitIndex: Option<nat>, ghost reached: nat)
    requires Admissible(fs, plan, policy, unitRename)
    modifies fs
    ensures fs.Valid() && old(fs.clock) <= fs.clock && Kept(old(fs.born), fs.born)
    ensures Settles(outcome, old(fs.ours), fs.ours, plan, policy, unitRename, moved, unitIndex, reached)
    ensures outcome.Raised? && !outcome.error.CleanupFault? ==>
      StopReason(fs, policy, plan.entries, outcome.error, old(fs.clock))
    ensures outcome == Raised(CleanupFault) ==> fs.FaultBetween(old(fs.clock), fs.clock)
    ensures unitIndex.Some? ==> unitRename && policy.Rename? && unitIndex.value >= 2
    ensures policy.Overwrite? ==> DecidedBy(fs, outcome, old(fs.ours), plan.entries, old(fs.clock), reached)
    ensures outcome.Published? && unitIndex.Some? ==> AllPassed(plan, unitIndex.value, old(fs.ours) + fs.born)
  {
    hide AllPassed, FileSystem.Valid, Held, StagedUnit, Image, BackupsOf, Targets, UsedBackups, NoBackupIsStaged, Named,
         Cleared, DistinctUnitNames, Stranded, ExistingTargets;
    var backups, ok;
    backups, ok, reached := Prepare(fs, plan, policy, unitRename);
    if ok {
      hide WhyStopped, Settles, Ready;
      outcome, moved, unitIndex :=
        PublishPrepared(fs, plan, policy, unitRename, backups, old(fs.ours), reached, old(fs.clock));
    } else {
      Abort(fs, plan, policy, backups, Fault, old(fs.ours), reached, old(fs.clock));
      outcome, moved, unitIndex := Raised(Fault), [], None;
    }
  }

  /** The mark of a whole unit: nothing, or a number from 2 on. */
  ghost predicate UnitMark(mark: string) {
    mark == "" || exists n: nat :: n >= 2 && mark == "_" + Digits(n)
  }

  /** `target` is the path `own` of a unit file with the mark after its prefix. */
  ghost predicate Marked(target: Path, own: Path, base: string, member: Option<string>, mark: string) {
    && (forall rest: string :: own.name == base + rest && (" (" <= rest || "." <= rest) ==>
          target == Path(own.dir, base + mark + rest))
    && (!TrackFile(own.name, base) && member.Some? && MemberFile(own.name, member.value) ==>
          exists rest: string ::
            own.name == member.value + rest && target == Path(own.dir, member.value + mark + rest))
  }

  /** All files of the unit carry one mark. */
  ghost predicate OneMark(paths: seq<Path>, entries: seq<Entry>, base: string, member: Option<string>) {
    && |paths| == |entries|
    && exists mark :: UnitMark(mark) && forall k :: 0 <= k < |paths| ==>
         Marked(paths[k], entries[k].target, base, member, mark)
  }

  lemma UnitFileIsMarked(target: Path, plan: Plan, k: nat, unitIndex: Option<nat>)
    requires SameNames(plan.entries) && k < |plan.entries| && plan.trackBase.Some?
    requires NamedAt(target, plan, k, Rename, true, unitIndex)
    ensures Marked(target, plan.entries[k].target, plan.Base(), plan.member,
                   if unitIndex.None? then "" else "_" + Digits(unitIndex.value))
  {
    hide UnitPrefix, WithUnitSuffix, Digits, TrackFile, MemberFile, NumberedVariant;
    var own := plan.entries[k].target;
    assert plan.entries[k] in plan.entries;
    SuffixMeans(own, plan.Base(), if unitIndex.None? then 0 else unitIndex.value, plan.member);
    forall rest: string | own.name == plan.Base() + rest && (" (" <= rest || "." <= rest)
      ensures UnitMember(plan, k) && plan.Base() + "" + rest == own.name
    {
      IsTrackFile(own.name, plan.Base(), rest);
    }
    assert forall head: string :: head + "" == head;
  }

  /** However the base was found, a published unit is not split. */
  lemma PublishedAsOne(moved: seq<Entry>, plan: Plan, unitIndex: Option<nat>)
    requires SameNames(plan.entries) && plan.trackBase.Some? && (unitIndex.Some? ==> unitIndex.value >= 2)
    requires Named(moved, plan, Rename, true, unitIndex)
    ensures OneMark(Paths(moved), plan.entries, plan.Base(), plan.member)
  {
    hide Marked, NamedAt, Digits;
    var mark := if unitIndex.None? then "" else "_" + Digits(unitIndex.value);
    assert UnitMark(mark);
    forall k | 0 <= k < |moved|
      ensures Marked(Paths(moved)[k], plan.entries[k].target, plan.Base(), plan.member, mark)
    {
      UnitFileIsMarked(moved[k].target, plan, k, unitIndex);
    }
  }

  lemma StagedNames(entries: seq<Entry>, files: map<Path, Bytes>, world: set<Path>)
    requires StagedUnit(entries, files, world)
    ensures SameNames(entries)
  {
  }

  lemma PublishedInStep(outcome: Outcome, before: map<Path, Bytes>, ours: map<Path, Bytes>, plan: Plan,
                        moved: seq<Entry>, unitIndex: Option<nat>, reached: nat)
    requires Settles(outcome, before, ours, plan, Rename, true, moved, unitIndex, reached) && outcome.Published?
    requires SameNames(plan.entries) && plan.trackBase.Some? && (unitIndex.Some? ==> unitIndex.value >= 2)
    ensures OneMark(outcome.paths, plan.entries, plan.trackBase.value, plan.member)
  {
    PublishedAsOne(moved, plan, unitIndex);
  }

  /** The refused files are those that belong to neither the track nor the member. */
  lemma ExpectedFiles(entries: seq<Entry>, destinations: Option<seq<Path>>, expected: Option<string>,
                      member: Option<string>)
    ensures Associate(entries, destinations, expected, member).Unexpected? <==>
              expected.Some? && exists e :: e in entries && !UnitFile(e.source.name, expected.value, member)
  {
    hide UnitPrefix, UnitFile, WithUnitSuffix;
    if expected.Some? {
      forall e | e in entries
        ensures UnitPrefix(e.source.name, expected.value, member).Some? <==>
                  UnitFile(e.source.name, expected.value, member)
      {
        SuffixMeans(e.source, expected.value, 0, member);
      }
    }
  }

  /** `_promote_locked`, on the entries of the staging walk.

      All or nothing: a published unit stands at its distinct returned paths with its staged
      bytes, nothing else changed, and no backup is left; on an exception the files are as
      they were, except for files that stood at backup paths and one case, a backup that could
      not be deleted after the unit was published. Other writers' files are never touched. A
      whole-unit suffix is the smallest one not passed over for a reason. */
  method PromoteLocked(fs: FileSystem, entries: seq<Entry>, destinations: Option<seq<Path>>,
                       expected: Option<string>, member: Option<string>, policy: Policy)
    returns (outcome: Outcome, moved: seq<Entry>, ghost unitIndex: Option<nat>, ghost reached: nat)
    requires match Associate(entries, destinations, expected, member)
             case Unexpected(_) => fs.Valid()
             case Associated(plan) => Admissible(fs, plan, policy, policy.Rename? && plan.trackBase.Some?)
    modifies fs
    ensures fs.Valid() && old(fs.clock) <= fs.clock && Kept(old(fs.born), fs.born)
    ensures outcome.Raised? && outcome.error.UnexpectedOutput? <==>
              expected.Some? && exists e :: e in entries && !UnitFile(e.source.name, expected.value, member)
    ensures forall base :: IsUnitBase(base, expected, destinations) && policy.Rename? && outcome.Published? ==>
              OneMark(outcome.paths, entries, base, member)
    ensures match Associate(entries, destinations, expected, member)
            case Unexpected(source) => outcome == Raised(UnexpectedOutput(source)) && fs.ours == old(fs.ours)
            case Associated(plan) =>
              && Settles(outcome, old(fs.ours), fs.ours, plan, policy, policy.Rename? && plan.trackBase.Some?,
                         moved, unitIndex, reached)
              && (outcome.Raised? && !outcome.error.CleanupFault? ==>
                    StopReason(fs, policy, entries, outcome.error, old(fs.clock)))
              && (policy.Overwrite? ==> DecidedBy(fs, outcome, old(fs.ours), entries, old(fs.clock), reached))
              && (outcome.Published? && unitIndex.Some? ==> AllPassed(plan, unitIndex.value, old(fs.ours) + fs.born))
              && (outcome == Raised(CleanupFault) ==> fs.FaultBetween(old(fs.clock), fs.clock))
              && ((policy.Fail? || policy.Skip?) && (exists e :: e in entries && e.target in old(fs.files)) ==>
                    outcome.Raised? && fs.ours == old(fs.ours))
  {
    hide AllPassed, FileSystem.Valid, StagedUnit, Image, Targets, UsedBackups, NoBackupIsStaged, Named, Cleared,
         DistinctUnitNames, Stranded, OneMark, UnitFile, SameNames, IsUnitBase;
    outcome, moved, unitIndex, reached := Raised(Fault), [], None, 0;
    ExpectedFiles(entries, destinations, expected, member);
    match Associate(entries, destinations, expected, member)
    case Unexpected(source) =>
      outcome := Raised(UnexpectedOutput(source));
    case Associated(plan) =>
      var hit := EarlyCollision(fs, plan, policy);
      if hit.Some? {
        outcome := Raised(if policy == Fail then Collision(hit.value) else SkippedFor(hit.value));
        NoneReached(old(fs.ours), entries);
      } else {
        hide Settles, WhyStopped;
        ghost var since := fs.clock;
        outcome, moved, unitIndex, reached := Transact(fs, plan, policy, policy == Rename && plan.trackBase.Some?);
        if outcome.Raised? && !outcome.error.CleanupFault? {
          EarlierReason(fs, policy, entries, outcome.error, since, old(fs.clock));
        }
        if outcome.Published? && policy == Rename && plan.trackBase.Some? {
          StagedNames(entries, old(fs.ours), fs.world);
          PublishedInStep(outcome, old(fs.ours), fs.ours, plan, moved, unitIndex, reached);
        }
      }
  }

  /** The first look at the targets under `fail` and `skip`. */
  method EarlyCollision(fs: FileSystem, plan: Plan, policy: Policy) returns (hit: Option<Path>)
    requires fs.Valid()
    modifies fs
    ensures fs.OthersOnly()
    ensures policy.Overwrite? ==> fs.clock == old(fs.clock)
    ensures hit.Some? ==> (policy.Fail? || policy.Skip?) && hit.value in Targets(plan.entries) && hit.value in fs.files
    ensures (policy.Fail? || policy.Skip?) && (exists e :: e in plan.entries && e.target in old(fs.files)) ==> hit.Some?
  {
    hit := None;
    if policy == Fail || policy == Skip {
      hit := FirstExisting(fs, plan.Destinations());
      assert forall k :: 0 <= k < |plan.entries| ==> plan.entries[k].target == plan.Destinations()[k];
    }
  }

  lemma NoneReached(base: map<Path, Bytes>, entries: seq<Entry>)
    ensures base - UsedBackups(base, entries[..0]) == base
  {
    assert UsedBackups(base, entries[..0]) == {};
  }

  lemma WithoutBackups(before: map<Path, Bytes>, entries: seq<Entry>)
    ensures before - UsedBackups(before, entries) == before <==>
            forall e :: e in entries && e.target in before ==> Backup(e.target) !in before
  {
    hide Backup;
    forall e | e in entries && e.target in before ensures Backup(e.target) in UsedBackups(before, entries) {
    }
    if before - UsedBackups(before, entries) == before {
      forall e | e in entries && e.target in before ensures Backup(e.target) !in before {
        assert Backup(e.target) !in before - UsedBackups(before, entries);
      }
    }
  }

  /** A promotion that fails before its unit is published restores the files exactly if and only
      if the backup paths of the targets it had moved aside were free. */
  lemma RollbackExactIffBackupsFree(
    error: Error, before: map<Path, Bytes>, ours: map<Path, Bytes>, plan: Plan, policy: Policy, unitRename: bool,
    moved: seq<Entry>, unitIndex: Option<nat>, reached: nat)
    requires Settles(Raised(error), before, ours, plan, policy, unitRename, moved, unitIndex, reached)
    requires !error.CleanupFault?
    ensures ours == before <==>
            forall k :: 0 <= k < reached && plan.entries[k].target in before ==>
              Backup(plan.entries[k].target) !in before
  {
    hide Backup;
    var used := plan.entries[..reached];
    WithoutBackups(before, used);
    forall k | 0 <= k < reached ensures plan.entries[k] in used {
      assert used[k] == plan.entries[k];
    }
  }

  lemma BackupIsOther(target: Path)
    ensures Backup(target) != target
  {
    assert |Backup(target).name| == |target.name| + 19;
  }

  /** A promotion that loses a file: the target exists, its backup path is occupied, and the move
      that publishes the one staged file fails. */
  method OldBackupIsLost(staged: Bytes, published: Bytes, occupant: Bytes)
    returns (fs: FileSystem, outcome: Outcome, before: map<Path, Bytes>)
    ensures outcome == Raised(Fault)
    ensures exists source, target ::
      && StagedUnit([Entry(source, target)], before, fs.world)
      && before == map[source := staged, target := published, Backup(target) := occupant]
      && Backup(target) in before && fs.files == before - {Backup(target)}
  {
    hide Backup, Named, Stranded, AllPassed;
    var source, target := Path("stage", "a.wav"), Path("out", "a.wav");
    BackupIsOther(target);
    before := map[source := staged, target := published, Backup(target) := occupant];
    var e := Entry(source, target);
    fs := new FileSystem(before, t => Event(map[], t == 4), {});
    OnePair(e, before);
    var moved;
    ghost var unitIndex, reached;
    outcome, moved, unitIndex, reached := PromoteLocked(fs, [e], None, None, None, Overwrite);
    assert !fs.FaultBetween(0, 2) && fs.schedule(4).fault;
    assert reached == 1 && !IsPublished(outcome);
    assert [e][..1] == [e];
    NobodyElse(fs);
  }

  lemma OnePair(e: Entry, before: map<Path, Bytes>)
    requires e.source.name == e.target.name && e.source.dir != e.target.dir
    requires e.source in before && e.target in before
    ensures StagedUnit([e], before, {}) && NoBackupIsStaged([e])
    ensures |ExistingTargets(before, [e])| == 1
    ensures UsedBackups(before, [e]) == {Backup(e.target)}
  {
    hide Backup;
    var one := [e];
    BackupIsOther(e.target);
    assert e in one && forall d :: d in one ==> d == e;
    assert OutDirs(one) == {e.target.dir};
    assert ExistingTargets(before, one) == {e.target};
    assert Backup(e.target) in UsedBackups(before, one);
    assert UsedBackups(before, one) == {Backup(e.target)};
  }
}

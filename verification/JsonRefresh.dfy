/** The multi-file JSON transaction and its lock order (core/downloads.py). */
module JsonRefresh {
  import opened Text

  type Bytes = seq<bv8>

  /** Destination files, and the temporary names `mkstemp` hands out, which are never reused. */
  datatype Path = Dest(name: string) | Temp(number: nat)

  /** JSON text: parsing a printed payload gives the payload back. */
  datatype Json<!J> = Json(dumps: J -> Bytes, parse: Bytes -> Option<J>)

  ghost predicate Faithful<J(!new)>(json: Json<J>) {
    forall j :: json.parse(json.dumps(j)) == Some(j)
  }

  datatype Write<J> = Write(path: Path, payload: J)

  datatype Staged = Staged(path: Path, temp: Path, text: Bytes)

  /** A disk on which each operation of a transaction may fail; undoing does not. */
  class Disk {
    var files: map<Path, Bytes>
    var next: nat
    var clock: nat
    const faults: nat -> bool

    ghost predicate Valid()
      reads this
    {
      forall n: nat :: Temp(n) in files ==> n < next
    }

    ghost predicate Faulted(since: nat)
      reads this
    {
      exists t: nat :: since <= t < clock && faults(t)
    }

    /** Create a temporary file with `text`, or leave nothing behind. */
    method WriteTemp(text: Bytes) returns (temp: Option<Path>)
      requires Valid()
      modifies this
      ensures Valid() && clock == old(clock) + 1
      ensures temp.None? ==> files == old(files) && faults(old(clock))
      ensures temp.Some? ==> temp.value.Temp? && temp.value !in old(files) && files == old(files)[temp.value := text]
    {
      clock := clock + 1;
      if faults(clock - 1) {
        return None;
      }
      temp := Some(Temp(next));
      files, next := files[Temp(next) := text], next + 1;
    }

    /** `os.replace` from a temporary name. */
    method Replace(temp: Path, path: Path) returns (ok: bool)
      requires Valid() && temp in files && path.Dest? && temp.Temp?
      modifies this
      ensures Valid() && clock == old(clock) + 1 && (ok <==> !faults(old(clock)))
      ensures files == if ok then (old(files) - {temp})[path := old(files)[temp]] else old(files)
    {
      clock := clock + 1;
      ok := !faults(clock - 1);
      if ok {
        files := (files - {temp})[path := files[temp]];
      }
    }

    method PutBack(temp: Path, path: Path)
      requires Valid() && temp in files && path.Dest? && temp.Temp?
      modifies this`files
      ensures Valid() && files == (old(files) - {temp})[path := old(files)[temp]]
    {
      files := (files - {temp})[path := files[temp]];
    }

    /** `os.unlink`, ignored when the file is gone. */
    method Remove(path: Path)
      requires Valid()
      modifies this`files
      ensures Valid() && files == old(files) - {path}
    {
      files := files - {path};
    }
  }

  // ---- the shape of a transaction --------------------------------------------

  /** The disk holds `dest` and, besides, the temporary files `temps`. */
  ghost predicate Over(files: map<Path, Bytes>, dest: map<Path, Bytes>, temps: set<Path>) {
    && temps !! dest.Keys
    && files.Keys == dest.Keys + temps
    && (forall p :: p in dest ==> files[p] == dest[p])
  }

  /** The destinations after the first staged files are in place. */
  function Placed(base: map<Path, Bytes>, staged: seq<Staged>): map<Path, Bytes> {
    if staged == [] then base
    else
      var last := staged[|staged| - 1];
      Placed(base, staged[..|staged| - 1])[last.path := last.text]
  }

  predicate DistinctPaths(staged: seq<Staged>) {
    && (forall k :: 0 <= k < |staged| ==> staged[k].path.Dest? && staged[k].temp.Temp?)
    && (forall i, j :: 0 <= i < j < |staged| ==> staged[i].path != staged[j].path && staged[i].temp != staged[j].temp)
  }

  lemma {:induction false} PlacedAt(base: map<Path, Bytes>, staged: seq<Staged>)
    requires DistinctPaths(staged)
    ensures forall k :: 0 <= k < |staged| ==>
      staged[k].path in Placed(base, staged) && Placed(base, staged)[staged[k].path] == staged[k].text
    ensures forall p :: (forall k :: 0 <= k < |staged| ==> staged[k].path != p) ==>
      (p in Placed(base, staged) <==> p in base) && (p in base ==> Placed(base, staged)[p] == base[p])
  {
    if staged != [] {
      var n := |staged| - 1;
      PlacedAt(base, staged[..n]);
      assert forall k :: 0 <= k < n ==> staged[..n][k] == staged[k];
    }
  }

  function TempsOf(staged: seq<Staged>): set<Path> {
    set s | s in staged :: s.temp
  }

  function BackupsOf(backups: seq<Option<Path>>): set<Path> {
    set b | b in backups && b.Some? :: b.value
  }

  /** Each staged text waits in its temporary file. */
  ghost predicate Waiting(files: map<Path, Bytes>, staged: seq<Staged>) {
    forall k :: 0 <= k < |staged| ==> staged[k].temp in files && files[staged[k].temp] == staged[k].text
  }

  /** Each existing destination has a backup with its bytes; all backups are different files. */
  ghost predicate Saved(files: map<Path, Bytes>, base: map<Path, Bytes>, staged: seq<Staged>,
                        backups: seq<Option<Path>>) {
    && |backups| <= |staged|
    && (forall k :: 0 <= k < |backups| ==> (backups[k].Some? <==> staged[k].path in base))
    && (forall k :: 0 <= k < |backups| && backups[k].Some? ==>
          backups[k].value.Temp? && backups[k].value in files && files[backups[k].value] == base[staged[k].path])
    && (forall i, j :: 0 <= i < j < |backups| && backups[i].Some? ==> backups[i] != backups[j])
    && BackupsOf(backups) !! TempsOf(staged)
  }

  predicate DistinctWrites<J>(writes: seq<Write<J>>) {
    && (forall k :: 0 <= k < |writes| ==> writes[k].path.Dest?)
    && (forall i, j :: 0 <= i < j < |writes| ==> writes[i].path != writes[j].path)
  }

  /** `_json_file_matches` */
  predicate Matches<J(==)>(json: Json<J>, files: map<Path, Bytes>, w: Write<J>) {
    w.path in files && json.parse(files[w.path]) == Some(w.payload)
  }

  /** The writes that change something, each with its text. */
  ghost predicate Stages<J>(json: Json<J>, base: map<Path, Bytes>, writes: seq<Write<J>>, staged: seq<Staged>) {
    && (forall w :: w in writes ==>
          if Matches(json, base, w) then forall s :: s in staged ==> s.path != w.path
          else exists s :: s in staged && s.path == w.path && s.text == json.dumps(w.payload))
    && (forall s :: s in staged ==> exists w :: w in writes && w.path == s.path)
  }

  lemma StagesNext<J>(json: Json<J>, base: map<Path, Bytes>, writes: seq<Write<J>>, staged: seq<Staged>, w: Write<J>,
                      s: Option<Staged>)
    requires Stages(json, base, writes, staged)
    requires forall v :: v in writes ==> v.path != w.path
    requires if Matches(json, base, w) then s.None?
             else s.Some? && s.value.path == w.path && s.value.text == json.dumps(w.payload)
    ensures Stages(json, base, writes + [w], if s.Some? then staged + [s.value] else staged)
    ensures forall t :: t in staged ==> t.path != w.path
  {
    hide Matches;
    var all := if s.Some? then staged + [s.value] else staged;
    assert forall v :: v in writes + [w] <==> v in writes || v == w;
    assert forall t :: t in all <==> t in staged || (s.Some? && t == s.value);
  }

  /** Only temporary files with the staged texts were added. */
  ghost predicate InStaging(files: map<Path, Bytes>, base: map<Path, Bytes>, staged: seq<Staged>) {
    Over(files, base, TempsOf(staged)) && Waiting(files, staged) && DistinctPaths(staged)
  }

  lemma StagesNothing<J>(json: Json<J>, files: map<Path, Bytes>)
    ensures InStaging(files, files, []) && Stages(json, files, [], [])
  {
    assert TempsOf([]) == {};
  }

  /** A staged text joins those that wait. */
  lemma StageNext(files: map<Path, Bytes>, base: map<Path, Bytes>, staged: seq<Staged>, s: Staged)
    requires InStaging(files, base, staged)
    requires s.temp !in files && s.temp.Temp? && s.path.Dest? && forall t :: t in staged ==> t.path != s.path
    ensures var files' := files[s.temp := s.text];
            InStaging(files', base, staged + [s])
  {
    assert forall t :: t in staged + [s] <==> t in staged || t == s;
    assert TempsOf(staged + [s]) == TempsOf(staged) + {s.temp};
    forall k | 0 <= k < |staged| ensures staged[k].temp != s.temp && staged[k].path != s.path {
      assert staged[k] in staged;
    }
  }

  /** The first loop: write the changed payloads to temporary files. */
  method Stage<J(==)>(disk: Disk, json: Json<J>, writes: seq<Write<J>>) returns (ok: bool, staged: seq<Staged>)
    requires disk.Valid() && DistinctWrites(writes)
    modifies disk
    ensures disk.Valid() && old(disk.clock) <= disk.clock
    ensures InStaging(disk.files, old(disk.files), staged)
    ensures ok ==> Stages(json, old(disk.files), writes, staged)
    ensures ok ==> forall w :: w in writes ==>
      ((forall s :: s in staged ==> s.path != w.path) <==>
       w.path in old(disk.files) && json.parse(old(disk.files)[w.path]) == Some(w.payload))
    ensures ok ==> forall s :: s in staged ==>
      exists w :: w in writes && w.path == s.path && s.text == json.dumps(w.payload)
    ensures !ok ==> disk.Faulted(old(disk.clock))
  {
    hide InStaging, Stages, Matches;
    staged, ok := [], true;
    StagesNothing(json, disk.files);
    assert writes[..0] == [];
    var n := 0;
    while n < |writes| && ok
      invariant n <= |writes| && disk.Valid() && old(disk.clock) <= disk.clock
      invariant InStaging(disk.files, old(disk.files), staged)
      invariant Stages(json, old(disk.files), writes[..n], staged)
      invariant !ok ==> disk.Faulted(old(disk.clock))
      decreases |writes| - n + if ok then 1 else 0
    {
      var w := writes[n];
      assert forall v :: v in writes[..n] ==> v.path != w.path;
      assert writes[..n + 1] == writes[..n] + [w];
      MatchesUnchanged(disk.files, old(disk.files), staged, json, w);
      if Matches(json, disk.files, w) {
        StagesNext(json, old(disk.files), writes[..n], staged, w, None);
        n := n + 1;
      } else {
        ghost var before, since := disk.files, disk.clock;
        var temp := disk.WriteTemp(json.dumps(w.payload));
        if temp.None? {
          ok := false;
        } else {
          var s := Staged(w.path, temp.value, json.dumps(w.payload));
          StagesNext(json, old(disk.files), writes[..n], staged, w, Some(s));
          StageNext(before, old(disk.files), staged, s);
          staged, n := staged + [s], n + 1;
        }
      }
    }
    if ok {
      assert writes[..n] == writes;
      StagesWhatDiffers(json, disk.files, old(disk.files), writes, staged);
    }
  }

  /** What is staged, told by the documents on disk. */
  lemma StagesWhatDiffers<J>(json: Json<J>, files: map<Path, Bytes>, base: map<Path, Bytes>, writes: seq<Write<J>>,
                             staged: seq<Staged>)
    requires Stages(json, base, writes, staged) && InStaging(files, base, staged)
    ensures forall w :: w in writes ==>
      ((forall s :: s in staged ==> s.path != w.path) <==>
       w.path in base && json.parse(base[w.path]) == Some(w.payload))
    ensures forall s :: s in staged ==> exists w :: w in writes && w.path == s.path && s.text == json.dumps(w.payload)
  {
    StagedOnce(files, base, staged);
    hide InStaging;
    forall s | s in staged ensures exists w :: w in writes && w.path == s.path && s.text == json.dumps(w.payload) {
      var w :| w in writes && w.path == s.path;
      StagedText(json, base, writes, staged, w, s);
    }
  }

  lemma StagedText<J>(json: Json<J>, base: map<Path, Bytes>, writes: seq<Write<J>>, staged: seq<Staged>, w: Write<J>,
                      s: Staged)
    requires Stages(json, base, writes, staged) && w in writes && s in staged && s.path == w.path
    requires forall r, t :: r in staged && t in staged && r.path == t.path ==> r == t
    ensures s.text == json.dumps(w.payload)
  {
    assert !Matches(json, base, w);
    hide Matches;
    var r :| r in staged && r.path == w.path && r.text == json.dumps(w.payload);
  }

  lemma StagedOnce(files: map<Path, Bytes>, base: map<Path, Bytes>, staged: seq<Staged>)
    requires InStaging(files, base, staged)
    ensures forall r, s :: r in staged && s in staged && r.path == s.path ==> r == s
  {
    forall r, s | r in staged && s in staged && r.path == s.path ensures r == s {
      var i :| 0 <= i < |staged| && staged[i] == r;
      var j :| 0 <= j < |staged| && staged[j] == s;
    }
  }

  lemma MatchesUnchanged<J>(files: map<Path, Bytes>, base: map<Path, Bytes>, staged: seq<Staged>, json: Json<J>,
                            w: Write<J>)
    requires InStaging(files, base, staged) && w.path.Dest?
    ensures Matches(json, files, w) <==> Matches(json, base, w)
  {
    StagedTemps(staged);
  }

  lemma StagedTemps(staged: seq<Staged>)
    requires DistinctPaths(staged)
    ensures forall p :: p in TempsOf(staged) ==> p.Temp?
  {
    forall s | s in staged ensures s.temp.Temp? {
      var k :| 0 <= k < |staged| && staged[k] == s;
    }
  }

  // ---- backups ---------------------------------------------------------------

  lemma BackupKeepsOver(files: map<Path, Bytes>, base: map<Path, Bytes>, temps: set<Path>, t: Path, text: Bytes)
    requires Over(files, base, temps) && t !in files
    ensures Over(files[t := text], base, temps + {t})
  {
  }

  lemma BackupKeepsSaved(files: map<Path, Bytes>, base: map<Path, Bytes>, staged: seq<Staged>,
                         backups: seq<Option<Path>>, t: Path)
    requires Saved(files, base, staged, backups) && |backups| < |staged|
    requires t !in files && t.Temp? && t !in TempsOf(staged) && staged[|backups|].path in base
    ensures Saved(files[t := base[staged[|backups|].path]], base, staged, backups + [Some(t)])
    ensures BackupsOf(backups + [Some(t)]) == BackupsOf(backups) + {t}
  {
    hide TempsOf;
    var all := backups + [Some(t)];
    assert forall b :: b in all <==> b in backups || b == Some(t);
    assert BackupsOf(all) == BackupsOf(backups) + {t};
    forall k | 0 <= k < |backups| && backups[k].Some? ensures backups[k].value != t {
      assert backups[k] in backups;
    }
  }

  lemma BackupNext(files: map<Path, Bytes>, base: map<Path, Bytes>, staged: seq<Staged>, backups: seq<Option<Path>>,
                   t: Path)
    requires Over(files, base, TempsOf(staged) + BackupsOf(backups)) && Waiting(files, staged)
    requires Saved(files, base, staged, backups) && |backups| < |staged|
    requires t !in files && t.Temp? && staged[|backups|].path in base
    ensures var files' := files[t := base[staged[|backups|].path]];
            && Over(files', base, TempsOf(staged) + BackupsOf(backups + [Some(t)])) && Waiting(files', staged)
            && Saved(files', base, staged, backups + [Some(t)])
  {
    hide Saved, TempsOf, BackupsOf;
    assert t !in TempsOf(staged);
    BackupKeepsOver(files, base, TempsOf(staged) + BackupsOf(backups), t, base[staged[|backups|].path]);
    BackupKeepsSaved(files, base, staged, backups, t);
    assert TempsOf(staged) + (BackupsOf(backups) + {t}) == TempsOf(staged) + BackupsOf(backups) + {t};
  }

  lemma BackupSkips(files: map<Path, Bytes>, base: map<Path, Bytes>, staged: seq<Staged>, backups: seq<Option<Path>>)
    requires Saved(files, base, staged, backups) && |backups| < |staged| && staged[|backups|].path !in base
    ensures Saved(files, base, staged, backups + [None]) && BackupsOf(backups + [None]) == BackupsOf(backups)
  {
    assert forall b :: b in backups + [None] <==> b in backups || b == None;
  }

  lemma Untouched(files: map<Path, Bytes>, base: map<Path, Bytes>, temps: set<Path>, p: Path)
    requires Over(files, base, temps) && p !in temps
    ensures p in files <==> p in base
    ensures p in files ==> files[p] == base[p]
  {
  }

  lemma TempsAreTemps(files: map<Path, Bytes>, base: map<Path, Bytes>, staged: seq<Staged>, backups: seq<Option<Path>>)
    requires DistinctPaths(staged) && Saved(files, base, staged, backups)
    ensures forall p :: p in TempsOf(staged) + BackupsOf(backups) ==> p.Temp?
  {
    StagedTemps(staged);
    forall p | p in BackupsOf(backups) ensures p.Temp? {
      var b :| b in backups && b == Some(p);
      var k :| 0 <= k < |backups| && backups[k] == b;
    }
  }

  /** The second loop: copy every existing destination aside. */
  method BackUp(disk: Disk, staged: seq<Staged>, ghost base: map<Path, Bytes>)
    returns (ok: bool, backups: seq<Option<Path>>)
    requires disk.Valid() && InStaging(disk.files, base, staged)
    modifies disk
    ensures disk.Valid() && old(disk.clock) <= disk.clock
    ensures Over(disk.files, base, TempsOf(staged) + BackupsOf(backups)) && Waiting(disk.files, staged)
    ensures Saved(disk.files, base, staged, backups)
    ensures ok ==> |backups| == |staged|
    ensures !ok ==> disk.Faulted(old(disk.clock))
  {
    backups, ok := [], true;
    assert BackupsOf([]) == {} && TempsOf(staged) + {} == TempsOf(staged);
    while |backups| < |staged| && ok
      invariant disk.Valid() && old(disk.clock) <= disk.clock && |backups| <= |staged|
      invariant Over(disk.files, base, TempsOf(staged) + BackupsOf(backups)) && Waiting(disk.files, staged)
      invariant Saved(disk.files, base, staged, backups)
      invariant !ok ==> disk.Faulted(old(disk.clock))
      decreases |staged| - |backups| + if ok then 1 else 0
    {
      ghost var before := disk.files;
      var path := staged[|backups|].path;
      assert path.Dest?;
      hide Over, Waiting, DistinctPaths, Saved, TempsOf, BackupsOf;
      TempsAreTemps(disk.files, base, staged, backups);
      Untouched(disk.files, base, TempsOf(staged) + BackupsOf(backups), path);
      if path !in disk.files {
        BackupSkips(disk.files, base, staged, backups);
        backups := backups + [None];
      } else {
        var temp := disk.WriteTemp(disk.files[path]);
        if temp.None? {
          ok := false;
        } else {
          BackupNext(before, base, staged, backups, temp.value);
          backups := backups + [temp];
        }
      }
    }
  }

  // ---- commit, undo, clean up ------------------------------------------------

  /** The first `k` staged files are in place; everything needed to go on or back is there. */
  ghost predicate Midway(files: map<Path, Bytes>, base: map<Path, Bytes>, staged: seq<Staged>,
                         backups: seq<Option<Path>>,
                         k: nat)
    requires k <= |staged|
  {
    && DistinctPaths(staged) && |backups| == |staged|
    && Over(files, Placed(base, staged[..k]), TempsOf(staged[k..]) + BackupsOf(backups))
    && Waiting(files, staged[k..]) && Saved(files, base, staged, backups)
  }

  lemma PlacedNext(base: map<Path, Bytes>, staged: seq<Staged>, k: nat)
    requires DistinctPaths(staged) && k < |staged|
    ensures Placed(base, staged[..k + 1]) == Placed(base, staged[..k])[staged[k].path := staged[k].text]
    ensures staged[k].path in Placed(base, staged[..k]) <==> staged[k].path in base
    ensures staged[k].path in base ==> Placed(base, staged[..k])[staged[k].path] == base[staged[k].path]
  {
    assert staged[..k + 1][..k] == staged[..k];
    PlacedAt(base, staged[..k]);
  }

  lemma TempsSplit(staged: seq<Staged>, k: nat)
    requires DistinctPaths(staged) && k < |staged|
    ensures TempsOf(staged[k..]) == TempsOf(staged[k + 1..]) + {staged[k].temp}
    ensures staged[k].temp !in TempsOf(staged[k + 1..]) && TempsOf(staged[k..]) <= TempsOf(staged)
  {
    assert staged[k..] == [staged[k]] + staged[k + 1..];
    forall s | s in staged[k + 1..] ensures s.temp != staged[k].temp {
      var i :| 0 <= i < |staged[k + 1..]| && staged[k + 1..][i] == s;
      assert s == staged[k + 1 + i];
    }
  }

  lemma CommitNext(files: map<Path, Bytes>, base: map<Path, Bytes>, staged: seq<Staged>, backups: seq<Option<Path>>,
                   k: nat)
    requires k < |staged| && Midway(files, base, staged, backups, k)
    ensures staged[k].temp in files && staged[k].path.Dest? && staged[k].temp.Temp?
    ensures Midway((files - {staged[k].temp})[staged[k].path := files[staged[k].temp]], base, staged, backups, k + 1)
  {
    var s := staged[k];
    var files' := (files - {s.temp})[s.path := files[s.temp]];
    assert staged[k..][0] == s;
    PlacedNext(base, staged, k);
    TempsSplit(staged, k);
    TempsAreTemps(files, base, staged, backups);
    CommitKeepsOver(files, Placed(base, staged[..k]), TempsOf(staged[k + 1..]) + BackupsOf(backups), s);
    CommitKeepsSaved(files, base, staged, backups, s);
    CommitKeepsWaiting(files, staged, k);
  }

  lemma CommitKeepsOver(files: map<Path, Bytes>, dest: map<Path, Bytes>, temps: set<Path>, s: Staged)
    requires Over(files, dest, temps + {s.temp}) && s.temp !in temps && s.path.Dest? && s.temp.Temp?
    requires files[s.temp] == s.text && forall p :: p in temps ==> p.Temp?
    ensures Over((files - {s.temp})[s.path := files[s.temp]], dest[s.path := s.text], temps)
  {
  }

  lemma CommitKeepsSaved(files: map<Path, Bytes>, base: map<Path, Bytes>, staged: seq<Staged>,
                         backups: seq<Option<Path>>,
                         s: Staged)
    requires Saved(files, base, staged, backups) && s in staged && s.path.Dest? && s.temp in files
    ensures Saved((files - {s.temp})[s.path := files[s.temp]], base, staged, backups)
  {
    assert s.temp in TempsOf(staged);
    forall k | 0 <= k < |backups| && backups[k].Some? ensures backups[k].value != s.temp {
      assert backups[k] in backups && backups[k].value in BackupsOf(backups);
    }
  }

  lemma CommitKeepsWaiting(files: map<Path, Bytes>, staged: seq<Staged>, k: nat)
    requires DistinctPaths(staged) && k < |staged| && Waiting(files, staged[k..])
    ensures Waiting((files - {staged[k].temp})[staged[k].path := files[staged[k].temp]], staged[k + 1..])
  {
    var rest, from := staged[k + 1..], staged[k..];
    forall i | 0 <= i < |rest|
      ensures rest[i].temp != staged[k].temp && rest[i].temp.Temp? && rest[i].temp in files && files[rest[i].temp] == rest[i].text
    {
      assert rest[i] == staged[k + 1 + i] && rest[i] == from[i + 1];
    }
    assert staged[k..][0] == staged[k];
  }

  /** The third loop: move the staged files into place. */
  method Commit(disk: Disk, staged: seq<Staged>, ghost backups: seq<Option<Path>>, ghost base: map<Path, Bytes>)
    returns (ok: bool, committed: nat)
    requires disk.Valid() && Midway(disk.files, base, staged, backups, 0)
    modifies disk
    ensures disk.Valid() && old(disk.clock) <= disk.clock && committed <= |staged|
    ensures Midway(disk.files, base, staged, backups, committed)
    ensures ok ==> committed == |staged|
    ensures !ok ==> disk.Faulted(old(disk.clock))
  {
    hide Midway;
    ok, committed := true, 0;
    while committed < |staged| && ok
      invariant disk.Valid() && old(disk.clock) <= disk.clock && committed <= |staged|
      invariant Midway(disk.files, base, staged, backups, committed)
      invariant !ok ==> disk.Faulted(old(disk.clock))
      decreases |staged| - committed + if ok then 1 else 0
    {
      CommitNext(disk.files, base, staged, backups, committed);
      ok := disk.Replace(staged[committed].temp, staged[committed].path);
      if ok {
        committed := committed + 1;
      }
    }
  }

  /** The first `k` staged files are still in place, with their backups among `temps`. */
  ghost predicate Undoing(files: map<Path, Bytes>, base: map<Path, Bytes>, staged: seq<Staged>,
                          backups: seq<Option<Path>>,
                          k: nat, temps: set<Path>)
    requires k <= |staged| == |backups|
  {
    && DistinctPaths(staged)
    && Over(files, Placed(base, staged[..k]), temps) && BackupsOf(backups[..k]) <= temps
    && Saved(files, base, staged, backups[..k])
  }

  lemma BackupsSplit(files: map<Path, Bytes>, base: map<Path, Bytes>, staged: seq<Staged>,
                     backups: seq<Option<Path>>, k: nat)
    requires k < |backups| && Saved(files, base, staged, backups[..k + 1])
    ensures Saved(files, base, staged, backups[..k])
    ensures backups[k].Some? <==> staged[k].path in base
    ensures backups[k].Some? ==>
      && backups[k].value.Temp? && backups[k].value in files && files[backups[k].value] == base[staged[k].path]
      && BackupsOf(backups[..k + 1]) == BackupsOf(backups[..k]) + {backups[k].value}
      && backups[k].value !in BackupsOf(backups[..k])
    ensures backups[k].None? ==> BackupsOf(backups[..k + 1]) == BackupsOf(backups[..k])
  {
    assert backups[..k + 1] == backups[..k] + [backups[k]];
    assert forall i :: 0 <= i < k ==> backups[..k + 1][i] == backups[..k][i];
    assert backups[..k + 1][k] == backups[k];
    forall b | b in backups[..k] && b.Some? ensures b != backups[k] {
      var i :| 0 <= i < k && backups[..k][i] == b;
    }
  }

  lemma UndoNext(files: map<Path, Bytes>, base: map<Path, Bytes>, staged: seq<Staged>, backups: seq<Option<Path>>,
                 k: nat,
                 temps: set<Path>)
    requires k < |staged| == |backups| && Undoing(files, base, staged, backups, k + 1, temps)
    requires forall p :: p in temps ==> p.Temp?
    ensures staged[k].path.Dest?
    ensures backups[k].None? ==> Undoing(files - {staged[k].path}, base, staged, backups, k, temps)
    ensures backups[k].Some? ==>
      var b := backups[k].value;
      b.Temp? && b in files && Undoing((files - {b})[staged[k].path := files[b]], base, staged, backups, k, temps - {b})
  {
    PlacedNext(base, staged, k);
    BackupsSplit(files, base, staged, backups, k);
    SavedElsewhere(files, base, staged, backups[..k], backups[k], staged[k].path);
  }

  lemma SavedElsewhere(files: map<Path, Bytes>, base: map<Path, Bytes>, staged: seq<Staged>, backups: seq<Option<Path>>,
                       b: Option<Path>, path: Path)
    requires Saved(files, base, staged, backups) && path.Dest?
    requires b.Some? ==> b.value !in BackupsOf(backups) && b.value in files
    ensures b.None? ==> Saved(files - {path}, base, staged, backups)
    ensures b.Some? ==> Saved((files - {b.value})[path := files[b.value]], base, staged, backups)
  {
    forall i | 0 <= i < |backups| && backups[i].Some? ensures backups[i].value in BackupsOf(backups) {
      assert backups[i] in backups;
    }
  }

  /** The rollback: last committed first. */
  method Undo(disk: Disk, staged: seq<Staged>, backups: seq<Option<Path>>, committed: nat, ghost base: map<Path, Bytes>,
              ghost all: set<Path>)
    returns (ghost temps: set<Path>)
    requires disk.Valid() && committed <= |staged| == |backups| && (forall p :: p in all ==> p.Temp?)
    requires Undoing(disk.files, base, staged, backups, committed, all)
    modifies disk`files
    ensures disk.Valid() && temps <= all && Over(disk.files, base, temps)
  {
    temps := all;
    var k := committed;
    while k > 0
      invariant 0 <= k <= committed && disk.Valid() && temps <= all
      invariant Undoing(disk.files, base, staged, backups, k, temps)
    {
      hide Undoing;
      k := k - 1;
      UndoNext(disk.files, base, staged, backups, k, temps);
      match backups[k] {
        case None =>
          disk.Remove(staged[k].path);
        case Some(b) =>
          disk.PutBack(b, staged[k].path);
          temps := temps - {b};
      }
    }
    assert staged[..0] == [];
  }

  method RemoveStaged(disk: Disk, staged: seq<Staged>)
    requires disk.Valid()
    modifies disk`files
    ensures disk.Valid() && disk.files == old(disk.files) - TempsOf(staged)
  {
    for k := 0 to |staged|
      invariant disk.Valid() && disk.files == old(disk.files) - TempsOf(staged[..k])
    {
      assert forall s :: s in staged[..k + 1] <==> s in staged[..k] || s == staged[k];
      assert TempsOf(staged[..k + 1]) == TempsOf(staged[..k]) + {staged[k].temp};
      disk.Remove(staged[k].temp);
    }
    assert staged[..|staged|] == staged;
  }

  method RemoveBackups(disk: Disk, backups: seq<Option<Path>>)
    requires disk.Valid()
    modifies disk`files
    ensures disk.Valid() && disk.files == old(disk.files) - BackupsOf(backups)
  {
    for k := 0 to |backups|
      invariant disk.Valid() && disk.files == old(disk.files) - BackupsOf(backups[..k])
    {
      assert forall b :: b in backups[..k + 1] <==> b in backups[..k] || b == backups[k];
      assert BackupsOf(backups[..k + 1]) == BackupsOf(backups[..k]) + if backups[k].Some? then {backups[k].value} else {};
      if backups[k].Some? {
        disk.Remove(backups[k].value);
      }
    }
    assert backups[..|backups|] == backups;
  }

  /** The `finally` block: remove every temporary file that is still there. */
  method CleanUp(disk: Disk, staged: seq<Staged>, backups: seq<Option<Path>>, ghost dest: map<Path, Bytes>,
                 ghost temps: set<Path>)
    requires disk.Valid() && Over(disk.files, dest, temps)
    requires temps <= TempsOf(staged) + BackupsOf(backups) && TempsOf(staged) + BackupsOf(backups) !! dest.Keys
    modifies disk`files
    ensures disk.Valid() && disk.files == dest
  {
    hide TempsOf, BackupsOf;
    RemoveStaged(disk, staged);
    RemoveBackups(disk, backups);
  }

  // ---- the whole refresh -----------------------------------------------------

  /** Every destination holds a document equal to its payload; other files are as before. */
  ghost predicate Refreshed<J>(json: Json<J>, files: map<Path, Bytes>, base: map<Path, Bytes>, writes: seq<Write<J>>) {
    && (forall w :: w in writes ==> Matches(json, files, w))
    && (forall p :: (forall w :: w in writes ==> w.path != p) ==>
          (p in files <==> p in base) && (p in base ==> files[p] == base[p]))
  }

  lemma PlacedText(base: map<Path, Bytes>, staged: seq<Staged>)
    requires DistinctPaths(staged)
    ensures forall s :: s in staged ==> s.path in Placed(base, staged) && Placed(base, staged)[s.path] == s.text
    ensures forall p :: (forall s :: s in staged ==> s.path != p) ==>
      (p in Placed(base, staged) <==> p in base) && (p in base ==> Placed(base, staged)[p] == base[p])
  {
    hide Placed;
    PlacedAt(base, staged);
    assert forall k :: 0 <= k < |staged| ==> staged[k] in staged;
  }

  lemma PlacedMatches<J(!new)>(json: Json<J>, base: map<Path, Bytes>, writes: seq<Write<J>>, staged: seq<Staged>,
                        w: Write<J>)
    requires Faithful(json) && DistinctPaths(staged) && Stages(json, base, writes, staged) && w in writes
    ensures Matches(json, Placed(base, staged), w)
  {
    hide Placed, DistinctPaths;
    PlacedText(base, staged);
    if !Matches(json, base, w) {
      var s :| s in staged && s.path == w.path && s.text == json.dumps(w.payload);
      assert json.parse(json.dumps(w.payload)) == Some(w.payload);
    }
  }

  lemma OthersKept<J(!new)>(json: Json<J>, base: map<Path, Bytes>, writes: seq<Write<J>>, staged: seq<Staged>, p: Path)
    requires DistinctPaths(staged) && Stages(json, base, writes, staged) && forall w :: w in writes ==> w.path != p
    ensures (p in Placed(base, staged) <==> p in base) && (p in base ==> Placed(base, staged)[p] == base[p])
  {
    hide Placed, DistinctPaths, Matches;
    PlacedText(base, staged);
    forall s | s in staged ensures s.path != p {
      var w :| w in writes && w.path == s.path;
    }
  }

  lemma PlacedIsRefreshed<J(!new)>(json: Json<J>, base: map<Path, Bytes>, writes: seq<Write<J>>, staged: seq<Staged>)
    requires Faithful(json) && DistinctPaths(staged) && Stages(json, base, writes, staged)
    ensures Refreshed(json, Placed(base, staged), base, writes)
  {
    hide Placed, DistinctPaths, Matches, Faithful, Stages;
    forall w | w in writes ensures Matches(json, Placed(base, staged), w) {
      PlacedMatches(json, base, writes, staged, w);
    }
    forall p | forall w :: w in writes ==> w.path != p
      ensures (p in Placed(base, staged) <==> p in base) && (p in base ==> Placed(base, staged)[p] == base[p])
    {
      OthersKept(json, base, writes, staged, p);
    }
  }

  /** What a refresh means for each document. */
  lemma DocumentsRefreshed<J(!new)>(json: Json<J>, base: map<Path, Bytes>, writes: seq<Write<J>>, staged: seq<Staged>)
    requires Faithful(json) && DistinctPaths(staged) && Stages(json, base, writes, staged)
    ensures var files := Placed(base, staged);
            forall w :: w in writes ==>
              && w.path in files && json.parse(files[w.path]) == Some(w.payload)
              && (w.path in base && json.parse(base[w.path]) == Some(w.payload) ==> files[w.path] == base[w.path])
    ensures staged != [] <==>
              (exists w :: w in writes && (w.path !in base || json.parse(base[w.path]) != Some(w.payload)))
  {
    hide Placed, DistinctPaths, Faithful;
    PlacedText(base, staged);
    forall w | w in writes
      ensures var files := Placed(base, staged);
              && w.path in files && json.parse(files[w.path]) == Some(w.payload)
              && (w.path in base && json.parse(base[w.path]) == Some(w.payload) ==> files[w.path] == base[w.path])
    {
      PlacedMatches(json, base, writes, staged, w);
    }
    StagedNone(json, base, writes, staged);
  }

  lemma StagedNone<J(!new)>(json: Json<J>, base: map<Path, Bytes>, writes: seq<Write<J>>, staged: seq<Staged>)
    requires Stages(json, base, writes, staged)
    ensures staged == [] <==> forall w :: w in writes ==> Matches(json, base, w)
  {
    hide Matches;
    if staged != [] {
      assert staged[0] in staged;
    }
  }

  /** The `try` block after staging. */
  method CommitOrUndo(disk: Disk, staged: seq<Staged>, ghost base: map<Path, Bytes>) returns (ok: bool)
    requires disk.Valid() && InStaging(disk.files, base, staged)
    modifies disk
    ensures disk.Valid() && old(disk.clock) <= disk.clock
    ensures disk.files == if ok then Placed(base, staged) else base
    ensures !ok ==> disk.Faulted(old(disk.clock))
  {
    hide Waiting;
    var backups;
    ok, backups := BackUp(disk, staged, base);
    TempsAreTemps(disk.files, base, staged, backups);
    ghost var all := TempsOf(staged) + BackupsOf(backups);
    if !ok {
      CleanUp(disk, staged, backups, base, all);
      return;
    }
    hide Over, Saved, DistinctPaths, TempsOf, BackupsOf;
    StartCommit(disk.files, base, staged, backups);
    var committed;
    ok, committed := Commit(disk, staged, backups, base);
    if ok {
      CommittedAll(disk.files, base, staged, backups, all);
      CleanUp(disk, staged, backups, Placed(base, staged), BackupsOf(backups));
    } else {
      StartUndo(disk.files, base, staged, backups, committed);
      ghost var temps := Undo(disk, staged, backups, committed, base, TempsOf(staged[committed..]) + BackupsOf(backups));
      SuffixTemps(staged, committed);
      CleanUp(disk, staged, backups, base, temps);
    }
  }

  lemma StartCommit(files: map<Path, Bytes>, base: map<Path, Bytes>, staged: seq<Staged>, backups: seq<Option<Path>>)
    requires Over(files, base, TempsOf(staged) + BackupsOf(backups)) && Waiting(files, staged) && DistinctPaths(staged)
    requires Saved(files, base, staged, backups) && |backups| == |staged|
    ensures Midway(files, base, staged, backups, 0)
    ensures TempsOf(staged) + BackupsOf(backups) !! base.Keys
  {
    assert staged[..0] == [] && staged[0..] == staged;
  }

  lemma CommittedAll(files: map<Path, Bytes>, base: map<Path, Bytes>, staged: seq<Staged>, backups: seq<Option<Path>>,
                     all: set<Path>)
    requires Midway(files, base, staged, backups, |staged|)
    requires all !! base.Keys && forall p :: p in all ==> p.Temp?
    ensures Over(files, Placed(base, staged), BackupsOf(backups)) && all !! Placed(base, staged).Keys
  {
    assert staged[..|staged|] == staged && staged[|staged|..] == [];
    assert TempsOf([]) + BackupsOf(backups) == BackupsOf(backups);
    PlacedAt(base, staged);
    forall p | p in Placed(base, staged) && p.Temp? ensures p in base {
      assert forall k :: 0 <= k < |staged| ==> staged[k].path != p;
    }
  }

  lemma StartUndo(files: map<Path, Bytes>, base: map<Path, Bytes>, staged: seq<Staged>, backups: seq<Option<Path>>,
                  k: nat)
    requires k <= |staged| && Midway(files, base, staged, backups, k)
    ensures |staged| == |backups| && Undoing(files, base, staged, backups, k, TempsOf(staged[k..]) + BackupsOf(backups))
    ensures forall p :: p in TempsOf(staged[k..]) + BackupsOf(backups) ==> p.Temp?
  {
    hide Over, Waiting, Placed;
    SuffixTemps(staged, k);
    TempsAreTemps(files, base, staged, backups);
    SavedPrefix(files, base, staged, backups, k);
  }

  lemma SuffixTemps(staged: seq<Staged>, k: nat)
    requires k <= |staged|
    ensures TempsOf(staged[k..]) <= TempsOf(staged)
  {
    assert forall s :: s in staged[k..] ==> s in staged;
  }

  lemma SavedPrefix(files: map<Path, Bytes>, base: map<Path, Bytes>, staged: seq<Staged>, backups: seq<Option<Path>>,
                    k: nat)
    requires Saved(files, base, staged, backups) && k <= |backups|
    ensures Saved(files, base, staged, backups[..k]) && BackupsOf(backups[..k]) <= BackupsOf(backups)
  {
    assert forall b :: b in backups[..k] ==> b in backups;
  }

  /** `_transactional_json_refresh_locked`: all destinations are refreshed, or nothing changed;
      no temporary file stays behind. */
  method Refresh<J(!new, ==)>(disk: Disk, json: Json<J>, writes: seq<Write<J>>) returns (ok: bool, changed: bool)
    requires disk.Valid() && Faithful(json) && DistinctWrites(writes)
    modifies disk
    ensures disk.Valid()
    ensures ok ==> Refreshed(json, disk.files, old(disk.files), writes)
    ensures ok ==> forall w :: w in writes ==> w.path in disk.files && json.parse(disk.files[w.path]) == Some(w.payload)
    ensures changed <==>
              ok && (exists w :: w in writes && (w.path !in old(disk.files)
                                                 || json.parse(old(disk.files)[w.path]) != Some(w.payload)))
    ensures forall w :: w in writes && w.path in old(disk.files)
                        && json.parse(old(disk.files)[w.path]) == Some(w.payload) ==>
      w.path in disk.files && disk.files[w.path] == old(disk.files)[w.path]
    ensures !changed ==> disk.files == old(disk.files)
    ensures !ok ==> disk.Faulted(old(disk.clock))
  {
    hide Over, Waiting, DistinctPaths, Stages, Refreshed, Matches;
    ghost var base := disk.files;
    var staged;
    ok, staged := Stage(disk, json, writes);
    if !ok {
      NoBackupsYet();
      StagedTemps(staged);
      OverApart(disk.files, base, TempsOf(staged));
      CleanUp(disk, staged, [], base, TempsOf(staged));
      return false, false;
    }
    PlacedIsRefreshed(json, base, writes, staged);
    DocumentsRefreshed(json, base, writes, staged);
    if staged == [] {
      NothingStaged(disk.files, base);
      return true, false;
    }
    ok := CommitOrUndo(disk, staged, base);
    changed := ok;
  }

  lemma NoBackupsYet()
    ensures BackupsOf([]) == {}
  {
  }

  lemma OverApart(files: map<Path, Bytes>, base: map<Path, Bytes>, temps: set<Path>)
    requires Over(files, base, temps)
    ensures temps !! base.Keys
  {
  }

  lemma NothingStaged(files: map<Path, Bytes>, base: map<Path, Bytes>)
    requires Over(files, base, TempsOf([]))
    ensures files == base && Placed(base, []) == base
  {
  }

  // ---- lock order ------------------------------------------------------------

  predicate Before(a: string, b: string) {
    b != "" && (a == "" || a[0] < b[0] || (a[0] == b[0] && Before(a[1..], b[1..])))
  }

  lemma {:induction false} BeforeIsOrder(a: string, b: string, c: string)
    ensures !Before(a, a)
    ensures Before(a, b) && Before(b, c) ==> Before(a, c)
    ensures a == b || Before(a, b) || Before(b, a)
  {
    if a != "" && b != "" {
      BeforeIsOrder(a[1..], b[1..], if c == "" then c else c[1..]);
      assert a[1..] == b[1..] && a[0] == b[0] ==> a == b;
    } else if a != "" {
      BeforeIsOrder(a[1..], a[1..], a[1..]);
    }
  }

  /** A refresh that takes its locks in sorted order: so far the first `taken`. A path may
      occur twice under different spellings; its lock is then held already. */
  datatype Transaction = Transaction(locks: seq<string>, taken: nat) {
    predicate Holds(lock: string) {
      taken <= |locks| && exists k :: 0 <= k < taken && locks[k] == lock
    }

    predicate Wants(lock: string) {
      taken < |locks| && locks[taken] == lock && !Holds(lock)
    }

    predicate Sorted() {
      forall i, j :: 0 <= i < j < |locks| ==> !Before(locks[j], locks[i])
    }
  }

  /** Transaction `a` cannot go on before `b` releases a lock. */
  predicate Waits(t: seq<Transaction>, a: nat, b: nat)
    requires a < |t| && b < |t|
  {
    a != b && exists k :: 0 <= k < |t[b].locks| && t[a].Wants(t[b].locks[k]) && t[b].Holds(t[b].locks[k])
  }

  /** Who waits for a transaction that waits itself wants an earlier lock. */
  lemma WaitsForLater(t: seq<Transaction>, a: nat, b: nat, c: nat)
    requires a < |t| && b < |t| && c < |t| && t[b].Sorted() && Waits(t, a, b) && Waits(t, b, c)
    ensures Before(t[a].locks[t[a].taken], t[b].locks[t[b].taken])
  {
    var want, next := t[a].locks[t[a].taken], t[b].locks[t[b].taken];
    BeforeIsOrder(want, next, want);
  }

  lemma {:induction false} LastWaiter(t: seq<Transaction>, n: nat) returns (m: nat)
    requires 0 < n <= |t| && forall k :: 0 <= k < n ==> t[k].taken < |t[k].locks|
    ensures m < n && forall k :: 0 <= k < n ==> !Before(t[m].locks[t[m].taken], t[k].locks[t[k].taken])
  {
    BeforeIsOrder(t[n - 1].locks[t[n - 1].taken], "", "");
    if n == 1 {
      m := 0;
    } else {
      m := LastWaiter(t, n - 1);
      var best, last := t[m].locks[t[m].taken], t[n - 1].locks[t[n - 1].taken];
      forall k | 0 <= k < n - 1 ensures Before(best, last) ==> !Before(last, t[k].locks[t[k].taken]) {
        BeforeIsOrder(best, last, t[k].locks[t[k].taken]);
      }
      if Before(best, last) {
        m := n - 1;
      }
    }
  }

  predicate Blocked(t: seq<Transaction>, a: nat)
    requires a < |t|
  {
    exists b :: 0 <= b < |t| && Waits(t, a, b)
  }

  /** However many refreshes run, one of them is not waiting for another: no deadlock. */
  lemma SomeoneProceeds(t: seq<Transaction>)
    requires t != [] && forall k :: 0 <= k < |t| ==> t[k].Sorted()
    ensures exists a :: 0 <= a < |t| && !Blocked(t, a)
  {
    if forall a :: 0 <= a < |t| ==> Blocked(t, a) {
      forall k | 0 <= k < |t| ensures t[k].taken < |t[k].locks| {
        assert Blocked(t, k);
        var b :| 0 <= b < |t| && Waits(t, k, b);
      }
      var m := LastWaiter(t, |t|);
      assert Blocked(t, m);
      var b :| 0 <= b < |t| && Waits(t, m, b);
      assert Blocked(t, b);
      var c :| 0 <= c < |t| && Waits(t, b, c);
      WaitsForLater(t, m, b, c);
    }
  }

  ghost predicate WaitChain(t: seq<Transaction>, chain: seq<nat>) {
    && (forall k :: 0 <= k < |chain| ==> chain[k] < |t|)
    && (forall k :: 0 <= k < |chain| - 1 ==> Waits(t, chain[k], chain[k + 1]))
  }

  lemma {:induction false} ChainClimbs(t: seq<Transaction>, chain: seq<nat>)
    requires (forall k :: 0 <= k < |t| ==> t[k].Sorted()) && WaitChain(t, chain) && |chain| >= 3
    ensures var a, b := chain[0], chain[|chain| - 2];
            && t[a].taken < |t[a].locks| && t[b].taken < |t[b].locks|
            && Before(t[a].locks[t[a].taken], t[b].locks[t[b].taken])
  {
    var n := |chain| - 1;
    assert Waits(t, chain[0], chain[1]) && Waits(t, chain[n - 2], chain[n - 1]) && Waits(t, chain[n - 1], chain[n]);
    WaitsForLater(t, chain[n - 2], chain[n - 1], chain[n]);
    if n > 2 {
      ChainClimbs(t, chain[..n]);
      BeforeIsOrder(t[chain[0]].locks[t[chain[0]].taken], t[chain[n - 2]].locks[t[chain[n - 2]].taken],
                    t[chain[n - 1]].locks[t[chain[n - 1]].taken]);
    }
  }

  /** Refreshes never wait for each other in a circle. */
  lemma NoWaitCycle(t: seq<Transaction>, chain: seq<nat>)
    requires (forall k :: 0 <= k < |t| ==> t[k].Sorted()) && WaitChain(t, chain) && |chain| >= 2
    ensures chain[0] != chain[|chain| - 1]
  {
    var n := |chain| - 1;
    if chain[0] == chain[n] {
      var round := chain + [chain[1]];
      forall k | 0 <= k < |round| - 1 ensures Waits(t, round[k], round[k + 1]) {
        if k < n {
          assert Waits(t, chain[k], chain[k + 1]);
        } else {
          assert Waits(t, chain[0], chain[1]);
        }
      }
      ChainClimbs(t, round);
      var want := t[chain[0]].locks[t[chain[0]].taken];
      BeforeIsOrder(want, want, want);
    }
  }
}

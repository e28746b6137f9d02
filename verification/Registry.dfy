/** Registration of Demucs models shared by concurrent installers (core/demucs_registry.py):
    artifacts are linked without replacing anything, then an entry is committed under a lock. */
module Registry {
  import opened Text

  type Bytes = seq<bv8>

  /** The file digest; nothing about it is assumed. */
  type Digest = Bytes -> string

  datatype Entry = Entry(entrypoint: string, supporting: seq<string>, primaryHash: string) {
    function Paths(): seq<string> {
      [entrypoint] + supporting
    }
  }

  datatype Document = Document(models: map<string, Entry>, byHash: map<string, string>)

  /** A validated registration: one expected fingerprint per artifact. */
  datatype Unit = Unit(modelId: string, entry: Entry, prints: seq<string>)

  datatype Phase = Inspecting(at: nat) | Linking | Failing

  /** A running `install`: the artifacts it found missing and the files it created. */
  datatype Installer = Installer(unit: Unit, phase: Phase, todo: seq<nat>, created: set<string>)

  /** `checked` remembers the bytes seen when a claimed path was last committed; the code keeps
      no such record. */
  datatype State = State(
    files: map<string, Bytes>,
    document: Document,
    installers: map<nat, Installer>,
    checked: map<string, Bytes>)

  // ---- the document ----------------------------------------------------------

  function Claimed(models: map<string, Entry>): set<string> {
    set id, p | id in models && p in models[id].Paths() :: p
  }

  /** `by_primary_hash` is the exact inverse of the models' hashes. */
  ghost predicate Inverse(d: Document) {
    && (forall h :: h in d.byHash ==> d.byHash[h] in d.models && d.models[d.byHash[h]].primaryHash == h)
    && (forall id :: id in d.models ==> d.models[id].primaryHash in d.byHash && d.byHash[d.models[id].primaryHash] == id)
  }

  ghost predicate ClaimsDisjoint(models: map<string, Entry>) {
    forall a, b, p :: a in models && b in models && p in models[a].Paths() && p in models[b].Paths() ==> a == b
  }

  ghost predicate SharedHash(models: map<string, Entry>) {
    exists a, b :: a in models && b in models && a != b && models[a].primaryHash == models[b].primaryHash
  }

  /** `_normalize_demucs_registry_document`: fill both dictionaries, in any order. */
  method Normalize(models: map<string, Entry>) returns (r: Option<Document>)
    ensures r.None? <==> SharedHash(models)
    ensures r.Some? ==> r.value.models == models && Inverse(r.value)
  {
    var normalized: map<string, Entry>, byHash: map<string, string> := map[], map[];
    var todo := models.Keys;
    while todo != {}
      invariant todo <= models.Keys && normalized.Keys == models.Keys - todo
      invariant forall id :: id in normalized ==> normalized[id] == models[id]
      invariant Inverse(Document(normalized, byHash))
      decreases |todo|
    {
      var id :| id in todo;
      var entry := models[id];
      if entry.primaryHash in byHash && byHash[entry.primaryHash] != id {
        assert models[byHash[entry.primaryHash]].primaryHash == entry.primaryHash;
        return None;
      }
      normalized, byHash, todo := normalized[id := entry], byHash[entry.primaryHash := id], todo - {id};
    }
    assert normalized == models;
    r := Some(Document(normalized, byHash));
  }

  lemma InverseIsUnique(d: Document, e: Document)
    requires Inverse(d) && Inverse(e) && d.models == e.models
    ensures d == e
  {
    assert forall h :: h in d.byHash <==> h in e.byHash;
  }

  // ---- one atomic step of each command ---------------------------------------

  predicate Snapshot(unit: Unit) {
    |unit.prints| == |unit.entry.Paths()|
  }

  /** `_assert_registry_available` */
  predicate Available(d: Document, unit: Unit, replace: bool) {
    && (unit.modelId in d.models ==> replace)
    && (unit.entry.primaryHash in d.byHash ==> d.byHash[unit.entry.primaryHash] == unit.modelId)
    && (forall p :: p in unit.entry.Paths() ==> p !in Claimed(d.models - {unit.modelId}))
  }

  /** `_assert_artifact_matches` */
  predicate Matches(digest: Digest, files: map<string, Bytes>, path: string, expected: string) {
    path in files && digest(files[path]) == expected
  }

  predicate AllMatch(digest: Digest, files: map<string, Bytes>, unit: Unit) {
    Snapshot(unit) &&
    forall k :: 0 <= k < |unit.prints| ==> Matches(digest, files, unit.entry.Paths()[k], unit.prints[k])
  }

  /** The by-hash index after one model is set. */
  function Indexed(d: Document, unit: Unit): Document {
    var rest := map h | h in d.byHash && d.byHash[h] != unit.modelId :: d.byHash[h];
    Document(d.models[unit.modelId := unit.entry], rest[unit.entry.primaryHash := unit.modelId])
  }

  function Observed(files: map<string, Bytes>, paths: seq<string>): map<string, Bytes> {
    map p | p in paths && p in files :: files[p]
  }

  predicate Committable(digest: Digest, s: State, unit: Unit, replace: bool) {
    Available(s.document, unit, replace) && AllMatch(digest, s.files, unit)
  }

  /** `_commit_unit` when every check passes and the registry file is written. */
  function Committed(s: State, unit: Unit): State {
    s.(document := Indexed(s.document, unit), checked := s.checked + Observed(s.files, unit.entry.Paths()))
  }

  function Without(s: State, pid: nat): State {
    s.(installers := s.installers - {pid})
  }

  function With(s: State, pid: nat, i: Installer): State {
    s.(installers := s.installers[pid := i])
  }

  function FirstIndex(paths: seq<string>, path: string): (k: nat)
    requires path in paths
    ensures k < |paths| && paths[k] == path && path !in paths[..k]
  {
    if paths[0] == path then 0 else
      assert paths == [paths[0]] + paths[1..];
      1 + FirstIndex(paths[1..], path)
  }

  datatype Event =
    | Begin(pid: nat, unit: Unit)
    | Inspect(pid: nat)
    | Link(pid: nat, bytes: Bytes)              // `bytes` were copied and checked just before
    | Fail(pid: nat)                            // any other operation of the command fails
    | Commit(pid: nat, written: bool)
    | Rollback(pid: nat, loads: bool, stuck: set<string>)  // `stuck` files cannot be removed
    | Configure(unit: Unit, replace: bool, written: bool)
    | Reset(id: string, written: bool)

  function InspectNext(digest: Digest, s: State, pid: nat, i: Installer): State
    requires i.phase.Inspecting? && Snapshot(i.unit)
  {
    var k := i.phase.at;
    if k >= |i.unit.prints| then With(s, pid, i.(phase := Linking))
    else
      var path := i.unit.entry.Paths()[k];
      if path !in s.files then With(s, pid, i.(phase := Inspecting(k + 1), todo := i.todo + [k]))
      else if Matches(digest, s.files, path, i.unit.prints[k]) then With(s, pid, i.(phase := Inspecting(k + 1)))
      else Without(s, pid)
  }

  /** `os.link`, which never replaces a file. */
  function LinkNext(digest: Digest, s: State, pid: nat, i: Installer, bytes: Bytes): State
    requires i.phase.Linking? && i.todo != [] && i.todo[0] < |i.unit.prints| && Snapshot(i.unit)
  {
    var path := i.unit.entry.Paths()[i.todo[0]];
    var next := i.(todo := i.todo[1..]);
    if path !in s.files then
      With(s.(files := s.files[path := bytes]), pid, next.(created := i.created + {path}))
    else
      var first := FirstIndex(i.unit.entry.Paths(), path);
      if Matches(digest, s.files, path, i.unit.prints[first]) then With(s, pid, next)
      else With(s, pid, i.(phase := Failing))
  }

  /** The files a rollback removes: created by this command and claimed by nobody. */
  function Removed(s: State, i: Installer, loads: bool, stuck: set<string>): set<string> {
    if loads then i.created - Claimed(s.document.models) - stuck else {}
  }

  predicate Enabled(digest: Digest, s: State, e: Event) {
    match e
    case Begin(pid, unit) => pid !in s.installers && Snapshot(unit)
    case Inspect(pid) => pid in s.installers && s.installers[pid].phase.Inspecting? && Snapshot(s.installers[pid].unit)
    case Link(pid, bytes) =>
      pid in s.installers &&
      var i := s.installers[pid];
      && i.phase.Linking? && i.todo != [] && i.todo[0] < |i.unit.prints| && Snapshot(i.unit)
      && digest(bytes) == i.unit.prints[i.todo[0]]
    case Fail(pid) => pid in s.installers
    case Commit(pid, _) => pid in s.installers && s.installers[pid].phase.Linking? && s.installers[pid].todo == []
    case Rollback(pid, _, _) => pid in s.installers && s.installers[pid].phase.Failing?
    case Configure(_, _, _) => true
    case Reset(_, _) => true
  }

  function Next(digest: Digest, s: State, e: Event): State {
    if !Enabled(digest, s, e) then s
    else match e
      case Begin(pid, unit) =>
        if Available(s.document, unit, false) then With(s, pid, Installer(unit, Inspecting(0), [], {})) else s
      case Inspect(pid) => InspectNext(digest, s, pid, s.installers[pid])
      case Link(pid, bytes) => LinkNext(digest, s, pid, s.installers[pid], bytes)
      case Fail(pid) => With(s, pid, s.installers[pid].(phase := Failing))
      case Commit(pid, written) =>
        var i := s.installers[pid];
        if Committable(digest, s, i.unit, false) && written then Without(Committed(s, i.unit), pid)
        else With(s, pid, i.(phase := Failing))
      case Rollback(pid, loads, stuck) =>
        Without(s.(files := s.files - Removed(s, s.installers[pid], loads, stuck)), pid)
      case Configure(unit, replace, written) =>
        if Committable(digest, s, unit, replace) && written then Committed(s, unit) else s
      case Reset(id, written) => if written then WithoutModel(s, id) else s
  }

  function WithoutModel(s: State, id: string): State {
    s.(document := Document(s.document.models - {id},
                            map h | h in s.document.byHash && s.document.byHash[h] != id :: s.document.byHash[h]))
  }

  function Run(digest: Digest, s: State, events: seq<Event>): State
    decreases |events|
  {
    if events == [] then s else Run(digest, Next(digest, s, events[0]), events[1..])
  }

  // ---- the invariant ---------------------------------------------------------

  /** Every claimed artifact is on disk with the bytes that were checked at its commit. */
  ghost predicate ArtifactsPresent(s: State) {
    forall p :: p in Claimed(s.document.models) ==> p in s.files && p in s.checked && s.files[p] == s.checked[p]
  }

  /** Files created by running installers exist, and no two created the same one. */
  ghost predicate CreationsOwned(s: State) {
    && (forall pid :: pid in s.installers ==> s.installers[pid].created <= s.files.Keys)
    && (forall a, b :: a in s.installers && b in s.installers && a != b ==>
          s.installers[a].created !! s.installers[b].created)
  }

  ghost predicate Inv(s: State) {
    && Inverse(s.document) && ClaimsDisjoint(s.document.models)
    && ArtifactsPresent(s) && CreationsOwned(s)
  }

  lemma CommitKeepsInverse(d: Document, unit: Unit, replace: bool)
    requires Inverse(d) && Available(d, unit, replace)
    ensures Inverse(Indexed(d, unit)) && !SharedHash(Indexed(d, unit).models)
  {
    hide Claimed;
  }

  lemma CommitKeepsClaims(d: Document, unit: Unit, replace: bool)
    requires ClaimsDisjoint(d.models) && Available(d, unit, replace)
    ensures ClaimsDisjoint(Indexed(d, unit).models)
    ensures forall p :: p in Claimed(Indexed(d, unit).models) ==> p in Claimed(d.models) || p in unit.entry.Paths()
  {
    var models, rest := d.models[unit.modelId := unit.entry], d.models - {unit.modelId};
    SetModel(d, unit);
    hide Indexed;
    forall id, p | id in models && p in models[id].Paths() && id != unit.modelId
      ensures p in Claimed(rest) && p in Claimed(d.models)
    {
      assert id in rest && p in rest[id].Paths();
      assert id in d.models && p in d.models[id].Paths();
    }
  }

  lemma CommitKeepsInv(digest: Digest, s: State, unit: Unit, replace: bool)
    requires Inv(s) && Committable(digest, s, unit, replace)
    ensures Inv(Committed(s, unit))
    ensures forall k :: 0 <= k < |unit.prints| ==>
      var p := unit.entry.Paths()[k];
      p in Committed(s, unit).checked && digest(Committed(s, unit).checked[p]) == unit.prints[k]
  {
    hide Inverse, ClaimsDisjoint, Available, Indexed, SharedHash, Claimed;
    CommitKeepsInverse(s.document, unit, replace);
    CommitKeepsClaims(s.document, unit, replace);
    var paths := unit.entry.Paths();
    forall p | p in paths ensures p in s.files {
      var k :| 0 <= k < |paths| && paths[k] == p;
    }
  }

  lemma ResetKeepsInv(s: State, id: string)
    requires Inv(s)
    ensures Inv(WithoutModel(s, id))
  {
    var models := WithoutModel(s, id).document.models;
    forall p | p in Claimed(models) ensures p in Claimed(s.document.models) {
    }
  }

  lemma InstallerKeepsInv(s: State, pid: nat, i: Installer)
    requires Inv(s) && i.created <= s.files.Keys
    requires forall q :: q in s.installers && q != pid ==> i.created !! s.installers[q].created
    ensures Inv(With(s, pid, i)) && Inv(Without(s, pid))
  {
    hide Inverse, ClaimsDisjoint, Claimed;
  }

  lemma LinkKeepsInv(digest: Digest, s: State, pid: nat, bytes: Bytes)
    requires Inv(s) && Enabled(digest, s, Link(pid, bytes))
    ensures Inv(LinkNext(digest, s, pid, s.installers[pid], bytes))
  {
    hide Inverse, ClaimsDisjoint, Claimed;
    var i := s.installers[pid];
    var path := i.unit.entry.Paths()[i.todo[0]];
    if path !in s.files {
      var s1 := s.(files := s.files[path := bytes]);
      assert Inv(s1);
      InstallerKeepsInv(s1, pid, i.(todo := i.todo[1..], created := i.created + {path}));
    } else {
      InstallerKeepsInv(s, pid, i.(todo := i.todo[1..]));
      InstallerKeepsInv(s, pid, i.(phase := Failing));
    }
  }

  lemma RollbackKeepsInv(s: State, pid: nat, gone: set<string>)
    requires Inv(s) && pid in s.installers && gone <= s.installers[pid].created - Claimed(s.document.models)
    ensures Inv(Without(s.(files := s.files - gone), pid))
  {
    hide Inverse, ClaimsDisjoint, Claimed;
  }

  lemma NextKeepsInv(digest: Digest, s: State, e: Event)
    requires Inv(s)
    ensures Inv(Next(digest, s, e))
  {
    hide Inv, Indexed, WithoutModel, Committable, Committed, LinkNext, Available, Claimed;
    if Enabled(digest, s, e) {
      match e
      case Begin(pid, unit) =>
        InstallerKeepsInv(s, pid, Installer(unit, Inspecting(0), [], {}));
      case Inspect(pid) =>
        InstallersOwn(s, pid);
        var i := s.installers[pid];
        InstallerKeepsInv(s, pid, i.(phase := Linking));
        InstallerKeepsInv(s, pid, i.(phase := Inspecting(i.phase.at + 1), todo := i.todo + [i.phase.at]));
        InstallerKeepsInv(s, pid, i.(phase := Inspecting(i.phase.at + 1)));
      case Link(pid, bytes) => LinkKeepsInv(digest, s, pid, bytes);
      case Fail(pid) =>
        InstallersOwn(s, pid);
        InstallerKeepsInv(s, pid, s.installers[pid].(phase := Failing));
      case Commit(pid, written) =>
        var i := s.installers[pid];
        InstallersOwn(s, pid);
        if Committable(digest, s, i.unit, false) && written {
          CommitKeepsInv(digest, s, i.unit, false);
          CommittedInstallers(s, i.unit);
          InstallerKeepsInv(Committed(s, i.unit), pid, i);
        } else {
          InstallerKeepsInv(s, pid, i.(phase := Failing));
        }
      case Rollback(pid, loads, stuck) => RollbackKeepsInv(s, pid, Removed(s, s.installers[pid], loads, stuck));
      case Configure(unit, replace, written) =>
        if Committable(digest, s, unit, replace) && written {
          CommitKeepsInv(digest, s, unit, replace);
        }
      case Reset(id, written) => ResetKeepsInv(s, id);
    }
  }

  lemma InstallersOwn(s: State, pid: nat)
    requires Inv(s) && pid in s.installers
    ensures s.installers[pid].created <= s.files.Keys
    ensures forall q :: q in s.installers && q != pid ==> s.installers[pid].created !! s.installers[q].created
  {
  }

  lemma CommittedInstallers(s: State, unit: Unit)
    ensures Committed(s, unit).installers == s.installers && Committed(s, unit).files == s.files
  {
  }

  /** No step changes the bytes of a file, and only the rollback of the command that created it
      removes one, never while a model claims it. */
  lemma OnlyOwnRemoved(digest: Digest, s: State, e: Event)
    ensures forall p :: p in s.files && p in Next(digest, s, e).files ==> Next(digest, s, e).files[p] == s.files[p]
    ensures forall p :: p in s.files && p !in Next(digest, s, e).files ==>
      e.Rollback? && e.pid in s.installers && p in s.installers[e.pid].created && p !in Claimed(s.document.models)
  {
    hide Indexed, Committable, Available, Claimed;
  }

  /** Registry safety over every interleaving of installs, rollbacks, configures and resets. */
  lemma {:induction false} RunKeepsInv(digest: Digest, s: State, events: seq<Event>)
    requires Inv(s)
    ensures Inv(Run(digest, s, events))
    decreases |events|
  {
    if events != [] {
      hide Inv;
      NextKeepsInv(digest, s, events[0]);
      RunKeepsInv(digest, Next(digest, s, events[0]), events[1..]);
    }
  }

  /** An artifact on disk lets an install go on if and only if it has the expected fingerprint, that of
      the first artifact with its path while linking: otherwise the command ends, or turns to its
      rollback. Either way no file changes. */
  lemma GoesOnIffMatching(digest: Digest, s: State, e: Event, k: nat)
    requires Enabled(digest, s, e) && (e.Inspect? || e.Link?)
    requires var i := s.installers[e.pid];
             var paths := i.unit.entry.Paths();
             && k < |paths| && paths[k] in s.files
             && (e.Inspect? ==> i.phase.at == k)
             && (e.Link? ==> paths[i.todo[0]] == paths[k] && paths[k] !in paths[..k])
    ensures var i, s' := s.installers[e.pid], Next(digest, s, e);
            var matching := digest(s.files[i.unit.entry.Paths()[k]]) == i.unit.prints[k];
            && s'.files == s.files && s'.document == s.document
            && (e.Inspect? ==> (e.pid in s'.installers <==> matching))
            && (e.Link? ==> e.pid in s'.installers && (s'.installers[e.pid].phase.Failing? <==> !matching))
  {
    hide Entry.Paths, FirstIndex, Claimed;
    if e.Link? {
      FirstIndexLeast(s.installers[e.pid].unit.entry.Paths(), k);
    }
  }

  /** A missing artifact is noted while inspecting and created while linking. */
  lemma MissingIsCreated(digest: Digest, s: State, e: Event)
    requires Enabled(digest, s, e)
    ensures e.Inspect? ==>
      var i, s' := s.installers[e.pid], Next(digest, s, e);
      i.phase.at < |i.unit.prints| && i.unit.entry.Paths()[i.phase.at] !in s.files ==>
        s'.files == s.files && e.pid in s'.installers && s'.installers[e.pid].todo == i.todo + [i.phase.at]
    ensures e.Link? ==>
      var i, s' := s.installers[e.pid], Next(digest, s, e);
      var path := i.unit.entry.Paths()[i.todo[0]];
      path !in s.files ==>
        && s'.files == s.files[path := e.bytes] && e.pid in s'.installers
        && s'.installers[e.pid].todo == i.todo[1..] && s'.installers[e.pid].created == i.created + {path}
  {
    hide Entry.Paths, FirstIndex, Claimed;
  }

  /** A registered ID keeps its entry: only a reset of it, or a configure that may replace it,
      changes anything, and no install of it begins. */
  lemma EntryStays(digest: Digest, s: State, e: Event, id: string)
    requires id in s.document.models
    ensures (e.Reset? && e.id == id) || (e.Configure? && e.unit.modelId == id && e.replace)
            || (id in Next(digest, s, e).document.models
                && Next(digest, s, e).document.models[id] == s.document.models[id])
    ensures e.Begin? && e.unit.modelId == id ==> Next(digest, s, e) == s
  {
    hide Claimed, AllMatch, Removed;
  }

  lemma {:induction false} RegisteredStays(digest: Digest, s: State, events: seq<Event>, id: string)
    requires id in s.document.models
    requires forall e :: e in events ==>
      !(e.Reset? && e.id == id) && !(e.Configure? && e.unit.modelId == id && e.replace)
    ensures var t := Run(digest, s, events);
            id in t.document.models && t.document.models[id] == s.document.models[id]
    decreases |events|
  {
    if events != [] {
      assert events[0] in events && forall e :: e in events[1..] ==> e in events;
      EntryStays(digest, s, events[0], id);
      hide Next;
      RegisteredStays(digest, Next(digest, s, events[0]), events[1..], id);
    }
  }

  // ---- failed installs leave nothing behind ----------------------------------

  /** Rollbacks can read the registry and remove files. */
  predicate Clean(e: Event) {
    e.Rollback? ==> e.loads && e.stuck == {}
  }

  ghost predicate CreatesOwnPaths(i: Installer) {
    && (forall p :: p in i.created ==> p in i.unit.entry.Paths())
    && (i.phase.Inspecting? ==> i.created == {})
  }

  /** Every file was there at the start, has been part of a registered model, or belongs to a
      command that is still running. */
  ghost predicate NoDebris(s: State, base: set<string>) {
    && (forall pid :: pid in s.installers ==> CreatesOwnPaths(s.installers[pid]))
    && (forall p :: p in s.files ==>
          p in base || p in s.checked || exists pid :: pid in s.installers && p in s.installers[pid].created)
  }

  lemma InstallerKeepsNoDebris(s: State, pid: nat, i: Installer, base: set<string>)
    requires NoDebris(s, base) && CreatesOwnPaths(i)
    requires pid in s.installers ==> s.installers[pid].created <= i.created
    ensures NoDebris(With(s, pid, i), base)
  {
    var s' := With(s, pid, i);
    forall p | p in s'.files
      ensures p in base || p in s'.checked || exists q :: q in s'.installers && p in s'.installers[q].created
    {
      if q :| q in s.installers && p in s.installers[q].created {
        assert q in s'.installers && p in s'.installers[q].created;
      }
    }
  }

  lemma WithoutKeepsNoDebris(s: State, pid: nat, base: set<string>)
    requires NoDebris(s, base) && pid in s.installers
    requires forall p :: p in s.installers[pid].created && p in s.files ==> p in s.checked
    ensures NoDebris(Without(s, pid), base)
  {
    var s' := Without(s, pid);
    forall p | p in s'.files && p !in base && p !in s'.checked
      ensures exists q :: q in s'.installers && p in s'.installers[q].created
    {
      var q :| q in s.installers && p in s.installers[q].created;
      assert q in s'.installers && p in s'.installers[q].created;
    }
  }

  lemma LinkKeepsNoDebris(digest: Digest, s: State, pid: nat, bytes: Bytes, base: set<string>)
    requires NoDebris(s, base) && Enabled(digest, s, Link(pid, bytes))
    ensures NoDebris(LinkNext(digest, s, pid, s.installers[pid], bytes), base)
  {
    var i := s.installers[pid];
    var path := i.unit.entry.Paths()[i.todo[0]];
    if path !in s.files {
      var next := i.(todo := i.todo[1..], created := i.created + {path});
      var s' := LinkNext(digest, s, pid, i, bytes);
      InstallerKeepsNoDebris(s, pid, next, base);
      assert s'.installers == With(s, pid, next).installers && path in s'.installers[pid].created;
    } else {
      InstallerKeepsNoDebris(s, pid, i.(todo := i.todo[1..]), base);
      InstallerKeepsNoDebris(s, pid, i.(phase := Failing), base);
    }
  }

  lemma CommitKeepsNoDebris(digest: Digest, s: State, unit: Unit, replace: bool, base: set<string>)
    requires NoDebris(s, base) && Committable(digest, s, unit, replace)
    ensures NoDebris(Committed(s, unit), base)
    ensures forall p :: p in unit.entry.Paths() && p in s.files ==> p in Committed(s, unit).checked
  {
    hide Available, Indexed, AllMatch;
    var s' := Committed(s, unit);
    assert s'.installers == s.installers;
  }

  lemma NextKeepsNoDebris(digest: Digest, s: State, e: Event, base: set<string>)
    requires Inv(s) && NoDebris(s, base) && Clean(e)
    ensures NoDebris(Next(digest, s, e), base)
  {
    hide NoDebris, Indexed, Committable, Committed, LinkNext, Available, Claimed, Inverse, ClaimsDisjoint;
    if Enabled(digest, s, e) {
      match e
      case Begin(pid, unit) => InstallerKeepsNoDebris(s, pid, Installer(unit, Inspecting(0), [], {}), base);
      case Inspect(pid) =>
        OwnPaths(s, pid, base);
        var i := s.installers[pid];
        InstallerKeepsNoDebris(s, pid, i.(phase := Linking), base);
        InstallerKeepsNoDebris(s, pid, i.(phase := Inspecting(i.phase.at + 1), todo := i.todo + [i.phase.at]), base);
        InstallerKeepsNoDebris(s, pid, i.(phase := Inspecting(i.phase.at + 1)), base);
        WithoutKeepsNoDebris(s, pid, base);
      case Link(pid, bytes) => LinkKeepsNoDebris(digest, s, pid, bytes, base);
      case Fail(pid) =>
        OwnPaths(s, pid, base);
        InstallerKeepsNoDebris(s, pid, s.installers[pid].(phase := Failing), base);
      case Commit(pid, written) =>
        var i := s.installers[pid];
        OwnPaths(s, pid, base);
        if Committable(digest, s, i.unit, false) && written {
          CommitKeepsNoDebris(digest, s, i.unit, false, base);
          CommittedInstallers(s, i.unit);
          WithoutKeepsNoDebris(Committed(s, i.unit), pid, base);
        } else {
          InstallerKeepsNoDebris(s, pid, i.(phase := Failing), base);
        }
      case Rollback(pid, loads, stuck) => RollbackKeepsNoDebris(s, pid, base);
      case Configure(unit, replace, written) =>
        if Committable(digest, s, unit, replace) && written {
          CommitKeepsNoDebris(digest, s, unit, replace, base);
        }
      case Reset(id, written) => ResetKeepsNoDebris(s, id, base);
    }
  }

  lemma OwnPaths(s: State, pid: nat, base: set<string>)
    requires NoDebris(s, base) && pid in s.installers
    ensures CreatesOwnPaths(s.installers[pid])
  {
  }

  lemma ResetKeepsNoDebris(s: State, id: string, base: set<string>)
    requires NoDebris(s, base)
    ensures NoDebris(WithoutModel(s, id), base)
  {
  }

  lemma RollbackKeepsNoDebris(s: State, pid: nat, base: set<string>)
    requires Inv(s) && NoDebris(s, base) && pid in s.installers
    ensures NoDebris(Without(s.(files := s.files - Removed(s, s.installers[pid], true, {})), pid), base)
  {
    hide Claimed, Inverse, ClaimsDisjoint;
    var gone := Removed(s, s.installers[pid], true, {});
    var s1 := s.(files := s.files - gone);
    forall p | p in s1.files && p !in base && p !in s1.checked
      ensures exists q :: q in s1.installers && p in s1.installers[q].created
    {
      var q :| q in s.installers && p in s.installers[q].created;
    }
    WithoutKeepsNoDebris(s1, pid, base);
  }

  /** When no command is running, every file was there at the start or has been part of a
      registered model: failed installs left nothing behind. */
  lemma {:induction false} FailedInstallsLeaveNothing(digest: Digest, s: State, events: seq<Event>, base: set<string>)
    requires Inv(s) && NoDebris(s, base) && forall e :: e in events ==> Clean(e)
    ensures NoDebris(Run(digest, s, events), base)
    ensures Run(digest, s, events).installers == map[] ==>
      forall p :: p in Run(digest, s, events).files ==> p in base || p in Run(digest, s, events).checked
    decreases |events|
  {
    if events != [] {
      NextKeepsInv(digest, s, events[0]);
      NextKeepsNoDebris(digest, s, events[0], base);
      assert events[0] in events && forall e :: e in events[1..] ==> e in events;
      FailedInstallsLeaveNothing(digest, Next(digest, s, events[0]), events[1..], base);
    }
  }

  // ---- the commands ----------------------------------------------------------

  lemma IndexedIsNormal(d: Document, unit: Unit, replace: bool, normalized: Document)
    requires Inverse(d) && Available(d, unit, replace)
    requires Inverse(normalized) && normalized.models == d.models[unit.modelId := unit.entry]
    ensures normalized == Indexed(d, unit)
  {
    hide Inverse, Available;
    CommitKeepsInverse(d, unit, replace);
    InverseIsUnique(normalized, Indexed(d, unit));
  }

  /** Artifacts that are on disk already have the expected content. */
  predicate ExistingMatch(digest: Digest, files: map<string, Bytes>, unit: Unit) {
    Snapshot(unit) &&
    forall k :: 0 <= k < |unit.prints| && unit.entry.Paths()[k] in files ==>
      Matches(digest, files, unit.entry.Paths()[k], unit.prints[k])
  }

  ghost predicate AreMissing(files: map<string, Bytes>, unit: Unit, missing: seq<nat>) {
    && Snapshot(unit)
    && (forall k: nat :: k in missing <==> k < |unit.prints| && unit.entry.Paths()[k] !in files)
    && (forall a, b :: 0 <= a < b < |missing| ==> missing[a] < missing[b])
  }

  /** The fingerprint expected of the first artifact with the path of artifact `k`. */
  function FirstPrint(unit: Unit, k: nat): string
    requires Snapshot(unit) && k < |unit.prints|
  {
    unit.prints[FirstIndex(unit.entry.Paths(), unit.entry.Paths()[k])]
  }

  predicate FirstLinked(digest: Digest, files: map<string, Bytes>, unit: Unit, k: nat) {
    Snapshot(unit) && k < |unit.prints| && Matches(digest, files, unit.entry.Paths()[k], FirstPrint(unit, k))
  }

  /** What an install alone needs: the entry is free, existing artifacts match, the copies of the
      missing ones match and can be linked, and a path listed twice is expected to hold one
      content. */
  predicate Installable(digest: Digest, files: map<string, Bytes>, d: Document, unit: Unit, copies: seq<Bytes>,
                        broken: set<nat>)
    requires |copies| == |unit.prints|
  {
    && Snapshot(unit) && Available(d, unit, false) && ExistingMatch(digest, files, unit)
    && (forall k :: 0 <= k < |unit.prints| && unit.entry.Paths()[k] !in files ==>
          digest(copies[k]) == unit.prints[k] && k !in broken && unit.prints[k] == FirstPrint(unit, k))
  }

  lemma InstallableMissing(digest: Digest, files: map<string, Bytes>, unit: Unit, missing: seq<nat>, copies: seq<Bytes>,
                           broken: set<nat>)
    requires |copies| == |unit.prints| && AreMissing(files, unit, missing)
    ensures forall k :: k in missing ==> k < |unit.prints|
    ensures (forall k :: 0 <= k < |unit.prints| && unit.entry.Paths()[k] !in files ==>
               digest(copies[k]) == unit.prints[k] && k !in broken && unit.prints[k] == FirstPrint(unit, k)) <==>
            (forall k :: k in missing ==> digest(copies[k]) == unit.prints[k])
            && (forall k :: k in missing ==> k !in broken && unit.prints[k] == FirstPrint(unit, k))
  {
    hide FirstPrint;
  }

  lemma {:induction false} FirstIndexLeast(paths: seq<string>, i: nat)
    requires i < |paths|
    ensures FirstIndex(paths, paths[i]) <= i
  {
    if paths[0] != paths[i] {
      FirstIndexLeast(paths[1..], i - 1);
    }
  }

  /** The loop's state: the artifacts of `done` are linked, each from the first one with its path. */
  ghost predicate LinkedSoFar(digest: Digest, base: map<string, Bytes>, files: map<string, Bytes>, unit: Unit,
                              done: seq<nat>, created: seq<string>)
  {
    && files.Keys == base.Keys + (set p | p in created)
    && (forall p :: p in base ==> files[p] == base[p])
    && (forall p :: p in created ==> p !in base && p in unit.entry.Paths())
    && (forall k :: k in done ==> FirstLinked(digest, files, unit, k))
    && CreatedFor(unit.entry.Paths(), done, created)
  }

  ghost predicate CreatedFor(paths: seq<string>, done: seq<nat>, created: seq<string>) {
    forall p :: p in created ==> exists k :: k in done && k < |paths| && paths[k] == p
  }

  lemma CreatedForMore(paths: seq<string>, done: seq<nat>, created: seq<string>, k: nat)
    requires CreatedFor(paths, done, created)
    ensures CreatedFor(paths, done + [k], created)
    ensures k < |paths| ==> CreatedFor(paths, done + [k], created + [paths[k]])
  {
    assert forall i :: i in done ==> i in done + [k];
    assert k in done + [k];
  }

  lemma LinkAdds(digest: Digest, base: map<string, Bytes>, files: map<string, Bytes>, unit: Unit, missing: seq<nat>,
                 n: nat, created: seq<string>, bytes: Bytes)
    requires n < |missing| && AreMissing(base, unit, missing) && missing[n] < |unit.prints|
    requires LinkedSoFar(digest, base, files, unit, missing[..n], created)
    requires unit.entry.Paths()[missing[n]] !in files && digest(bytes) == unit.prints[missing[n]]
    ensures var p := unit.entry.Paths()[missing[n]];
            LinkedSoFar(digest, base, files[p := bytes], unit, missing[..n + 1], created + [p])
  {
    hide FirstIndex, Entry.Paths, FirstLinked, FirstPrint, CreatedFor;
    CreatedForMore(unit.entry.Paths(), missing[..n], created, missing[n]);
    var k, p := missing[n], unit.entry.Paths()[missing[n]];
    var done, after := missing[..n + 1], files[p := bytes];
    assert done == missing[..n] + [k] && k in missing;
    FirstIsNext(digest, base, files, unit, missing, n, created);
    IsFirstLinked(digest, after, unit, k);
    forall j | j in missing[..n] ensures FirstLinked(digest, after, unit, j) {
      FirstLinkedStays(digest, files, unit, j, p, bytes);
    }
    assert forall j :: j in done <==> j in missing[..n] || j == k;
    assert forall q :: q in created + [p] <==> q in created || q == p;
  }

  /** The artifact linked next is the first one with its path. */
  lemma FirstIsNext(digest: Digest, base: map<string, Bytes>, files: map<string, Bytes>, unit: Unit, missing: seq<nat>,
                    n: nat, created: seq<string>)
    requires n < |missing| && AreMissing(base, unit, missing) && missing[n] < |unit.prints|
    requires LinkedSoFar(digest, base, files, unit, missing[..n], created)
    requires unit.entry.Paths()[missing[n]] !in files
    ensures FirstIndex(unit.entry.Paths(), unit.entry.Paths()[missing[n]]) == missing[n]
  {
    hide FirstIndex;
    var paths, k := unit.entry.Paths(), missing[n];
    assert k in missing;
    FirstIndexLeast(paths, k);
    forall i | 0 <= i < |missing| && missing[i] < k ensures missing[i] < |paths| && paths[missing[i]] in files {
      assert missing[i] in missing[..n];
    }
  }

  /** A path listed twice was linked before. */
  lemma LinkSkips(digest: Digest, base: map<string, Bytes>, files: map<string, Bytes>, unit: Unit, missing: seq<nat>,
                  n: nat, created: seq<string>)
    requires n < |missing| && AreMissing(base, unit, missing) && missing[n] < |unit.prints|
    requires LinkedSoFar(digest, base, files, unit, missing[..n], created)
    requires unit.entry.Paths()[missing[n]] in files
    ensures FirstLinked(digest, files, unit, missing[n])
    ensures LinkedSoFar(digest, base, files, unit, missing[..n + 1], created)
  {
    hide AreMissing, LinkedSoFar, FirstLinked, Entry.Paths;
    MissingAt(base, unit, missing, n);
    LinkedBefore(digest, base, files, unit, missing[..n], created, missing[n]);
    assert missing[..n + 1] == missing[..n] + [missing[n]];
    AlsoLinked(digest, base, files, unit, missing[..n], created, missing[n]);
  }

  lemma MissingAt(base: map<string, Bytes>, unit: Unit, missing: seq<nat>, n: nat)
    requires n < |missing| && AreMissing(base, unit, missing)
    ensures Snapshot(unit) && missing[n] < |unit.prints| && unit.entry.Paths()[missing[n]] !in base
  {
    assert missing[n] in missing;
  }

  lemma LinkedBefore(digest: Digest, base: map<string, Bytes>, files: map<string, Bytes>, unit: Unit, done: seq<nat>,
                     created: seq<string>, k: nat)
    requires LinkedSoFar(digest, base, files, unit, done, created) && Snapshot(unit) && k < |unit.prints|
    requires unit.entry.Paths()[k] in files && unit.entry.Paths()[k] !in base
    ensures FirstLinked(digest, files, unit, k)
  {
    hide Entry.Paths, FirstLinked;
    var j :| j in done && j < |unit.entry.Paths()| && unit.entry.Paths()[j] == unit.entry.Paths()[k];
    SamePathLinked(digest, files, unit, j, k);
  }

  lemma AlsoLinked(digest: Digest, base: map<string, Bytes>, files: map<string, Bytes>, unit: Unit, done: seq<nat>,
                   created: seq<string>, k: nat)
    requires LinkedSoFar(digest, base, files, unit, done, created) && FirstLinked(digest, files, unit, k)
    ensures LinkedSoFar(digest, base, files, unit, done + [k], created)
  {
    hide Entry.Paths, FirstLinked, CreatedFor;
    CreatedForMore(unit.entry.Paths(), done, created, k);
  }

  lemma SamePathLinked(digest: Digest, files: map<string, Bytes>, unit: Unit, j: nat, k: nat)
    requires FirstLinked(digest, files, unit, j) && k < |unit.prints| && unit.entry.Paths()[j] == unit.entry.Paths()[k]
    ensures FirstLinked(digest, files, unit, k)
  {
    hide FirstIndex, Entry.Paths;
  }

  lemma IsFirstLinked(digest: Digest, files: map<string, Bytes>, unit: Unit, k: nat)
    requires Snapshot(unit) && k < |unit.prints|
    requires FirstIndex(unit.entry.Paths(), unit.entry.Paths()[k]) == k
    requires Matches(digest, files, unit.entry.Paths()[k], unit.prints[k])
    ensures FirstLinked(digest, files, unit, k)
  {
    hide FirstIndex, Entry.Paths;
  }

  lemma FirstLinkedStays(digest: Digest, files: map<string, Bytes>, unit: Unit, k: nat, path: string, bytes: Bytes)
    requires FirstLinked(digest, files, unit, k) && path !in files
    ensures FirstLinked(digest, files[path := bytes], unit, k)
  {
    hide FirstIndex, FirstPrint, Entry.Paths;
  }

  lemma NothingLinked(digest: Digest, files: map<string, Bytes>, unit: Unit, missing: seq<nat>)
    ensures LinkedSoFar(digest, files, files, unit, missing[..0], [])
  {
  }

  lemma FirstLinkedMatches(digest: Digest, files: map<string, Bytes>, unit: Unit, k: nat)
    requires FirstLinked(digest, files, unit, k)
    ensures Matches(digest, files, unit.entry.Paths()[k],
                    unit.prints[FirstIndex(unit.entry.Paths(), unit.entry.Paths()[k])])
  {
  }

  lemma LinkedFacts(digest: Digest, base: map<string, Bytes>, files: map<string, Bytes>, unit: Unit, done: seq<nat>,
                    created: seq<string>)
    requires LinkedSoFar(digest, base, files, unit, done, created)
    ensures files.Keys == base.Keys + (set p | p in created)
    ensures forall p :: p in base ==> files[p] == base[p]
    ensures forall p :: p in created ==> p !in base && p in unit.entry.Paths()
    ensures forall k :: k in done ==> FirstLinked(digest, files, unit, k)
  {
  }

  lemma LinkedMatch(digest: Digest, base: map<string, Bytes>, files: map<string, Bytes>, unit: Unit, missing: seq<nat>)
    requires ExistingMatch(digest, base, unit) && AreMissing(base, unit, missing)
    requires forall p :: p in base ==> p in files && files[p] == base[p]
    requires forall k :: k in missing ==> FirstLinked(digest, files, unit, k)
    ensures forall k :: k in missing ==> k < |unit.prints|
    ensures AllMatch(digest, files, unit) <==> forall k :: k in missing ==> unit.prints[k] == FirstPrint(unit, k)
  {
    hide FirstPrint;
    forall k | 0 <= k < |unit.prints| && unit.entry.Paths()[k] in base
      ensures Matches(digest, files, unit.entry.Paths()[k], unit.prints[k])
    {
      assert Matches(digest, base, unit.entry.Paths()[k], unit.prints[k]);
    }
  }

  // ---- what the checks mean --------------------------------------------------

  /** `path` is the entrypoint of the entry or one of its supporting files. */
  ghost predicate Uses(entry: Entry, path: string) {
    path == entry.entrypoint || path in entry.supporting
  }

  /** No other model has the unit's hash or one of its paths, and its ID is new unless it may be
      replaced. */
  ghost predicate Free(models: map<string, Entry>, unit: Unit, replace: bool) {
    && (unit.modelId in models ==> replace)
    && (forall id :: id in models && id != unit.modelId ==> models[id].primaryHash != unit.entry.primaryHash)
    && (forall id, p :: id in models && id != unit.modelId && Uses(models[id], p) ==> !Uses(unit.entry, p))
  }

  /** Every artifact is on disk with the expected fingerprint. */
  ghost predicate Intact(digest: Digest, files: map<string, Bytes>, unit: Unit) {
    var paths := [unit.entry.entrypoint] + unit.entry.supporting;
    && |unit.prints| == |paths|
    && (forall k :: 0 <= k < |paths| ==> paths[k] in files && digest(files[paths[k]]) == unit.prints[k])
  }

  /** What an install alone needs: artifacts on disk have the expected fingerprint, the others can
      be copied with it and linked, and a path listed twice is expected to hold one content. */
  ghost predicate Obtainable(digest: Digest, files: map<string, Bytes>, unit: Unit, copies: seq<Bytes>,
                             broken: set<nat>)
    requires |copies| == |unit.prints|
  {
    var paths := [unit.entry.entrypoint] + unit.entry.supporting;
    && |unit.prints| == |paths|
    && (forall k :: 0 <= k < |paths| && paths[k] in files ==> digest(files[paths[k]]) == unit.prints[k])
    && (forall k :: 0 <= k < |paths| && paths[k] !in files ==> digest(copies[k]) == unit.prints[k] && k !in broken)
    && (forall i, j :: 0 <= i < j < |paths| && paths[i] == paths[j] && paths[i] !in files ==>
          unit.prints[i] == unit.prints[j])
  }

  lemma UsesIffListed(entry: Entry, path: string)
    ensures Uses(entry, path) <==> path in entry.Paths()
  {
  }

  lemma AvailableIffFree(d: Document, unit: Unit, replace: bool)
    requires Inverse(d)
    ensures Available(d, unit, replace) <==> Free(d.models, unit, replace)
  {
    hide Entry.Paths, Uses;
    var rest := d.models - {unit.modelId};
    forall e: Entry, p: string ensures Uses(e, p) <==> p in e.Paths() {
      UsesIffListed(e, p);
    }
    assert forall id :: id in rest <==> id in d.models && id != unit.modelId;
    assert forall p :: p in Claimed(rest) <==> exists id :: id in rest && p in rest[id].Paths();
  }

  lemma AllMatchIffIntact(digest: Digest, files: map<string, Bytes>, unit: Unit)
    ensures AllMatch(digest, files, unit) <==> Intact(digest, files, unit)
  {
    assert unit.entry.Paths() == [unit.entry.entrypoint] + unit.entry.supporting;
    hide Entry.Paths;
  }

  lemma InstallableIff(digest: Digest, files: map<string, Bytes>, d: Document, unit: Unit, copies: seq<Bytes>,
                       broken: set<nat>)
    requires Inverse(d) && |copies| == |unit.prints|
    ensures Installable(digest, files, d, unit, copies, broken)
            <==> Free(d.models, unit, false) && Obtainable(digest, files, unit, copies, broken)
  {
    assert unit.entry.Paths() == [unit.entry.entrypoint] + unit.entry.supporting;
    hide Available, Free, Inverse, Entry.Paths, FirstIndex;
    AvailableIffFree(d, unit, false);
    var paths := unit.entry.Paths();
    if Snapshot(unit) {
      forall k | 0 <= k < |paths| ensures FirstIndex(paths, paths[k]) <= k {
        FirstIndexLeast(paths, k);
      }
    }
  }

  class DemucsRegistry {
    var files: map<string, Bytes>
    var document: Document
    ghost var installers: map<nat, Installer>
    ghost var checked: map<string, Bytes>
    const digest: Digest

    constructor (files: map<string, Bytes>, digest: Digest)
      ensures Inv(Now()) && this.files == files && this.digest == digest && document == Document(map[], map[])
      ensures installers == map[]
    {
      this.files, this.digest, document := files, digest, Document(map[], map[]);
      installers, checked := map[], map[];
    }

    ghost function Now(): State
      reads this
    {
      State(files, document, installers, checked)
    }

    /** `_assert_registry_available` */
    method IsAvailable(unit: Unit, replace: bool) returns (ok: bool)
      ensures ok <==> Available(document, unit, replace)
      ensures unit.modelId in document.models && !replace ==> !ok
      ensures Inverse(document) ==> (ok <==> Free(document.models, unit, replace))
    {
      if Inverse(document) {
        AvailableIffFree(document, unit, replace);
      }
      hide Inverse, Free, Entry.Paths;
      if unit.modelId in document.models && !replace {
        return false;
      }
      if unit.entry.primaryHash in document.byHash && document.byHash[unit.entry.primaryHash] != unit.modelId {
        return false;
      }
      var claimed := Claimed(document.models - {unit.modelId});
      var paths := unit.entry.Paths();
      for k := 0 to |paths|
        invariant forall p :: p in paths[..k] ==> p !in claimed
      {
        if paths[k] in claimed {
          assert paths[k] in paths;
          return false;
        }
      }
      ok := true;
    }

    /** The artifact checks of `_commit_unit`. */
    method ArtifactsMatch(unit: Unit) returns (ok: bool)
      ensures ok <==> AllMatch(digest, files, unit)
    {
      var paths := unit.entry.Paths();
      if |unit.prints| != |paths| {
        return false;
      }
      for k := 0 to |paths|
        invariant forall j :: 0 <= j < k ==> Matches(digest, files, paths[j], unit.prints[j])
      {
        if paths[k] !in files || digest(files[paths[k]]) != unit.prints[k] {
          return false;
        }
      }
      ok := true;
    }

    /** `_commit_unit`, and thereby `configure` */
    method CommitUnit(unit: Unit, replace: bool, written: bool) returns (ok: bool)
      requires Inv(Now())
      modifies this
      ensures Inv(Now())
      ensures ok <==> old(Committable(digest, Now(), unit, replace)) && written
      ensures Now() == if ok then old(Committed(Now(), unit)) else old(Now())
      ensures unit.modelId in old(document).models && !replace ==> !ok && document == old(document)
      ensures ok <==> old(Free(document.models, unit, replace) && Intact(digest, files, unit)) && written
      ensures ok ==> document.models == old(document).models[unit.modelId := unit.entry]
    {
      AvailableIffFree(document, unit, replace);
      AllMatchIffIntact(digest, files, unit);
      hide Available, Claimed, Inverse, ClaimsDisjoint, AllMatch, Indexed, SharedHash, Free, Intact;
      ok := IsAvailable(unit, replace);
      if ok {
        ok := ArtifactsMatch(unit);
      }
      if ok {
        CommitKeepsInv(digest, Now(), unit, replace);
        CommitKeepsInverse(document, unit, replace);
        SetModel(document, unit);
        var normalized := Normalize(document.models[unit.modelId := unit.entry]);
        if written {
          IndexedIsNormal(document, unit, replace, normalized.value);
          document := normalized.value;
          checked := checked + Observed(files, unit.entry.Paths());
        }
        ok := written;
      }
    }

    /** `_rollback_created_paths` */
    method RollbackCreated(created: seq<string>, loads: bool, stuck: set<string>)
      modifies this
      ensures document == old(document) && installers == old(installers) && checked == old(checked)
      ensures files == old(files) - if loads then (set p | p in created) - Claimed(document.models) - stuck else {}
    {
      if !loads {
        assert files - {} == files;
        return;
      }
      var claimed := Claimed(document.models);
      for k := 0 to |created|
        invariant document == old(document) && installers == old(installers) && checked == old(checked)
        invariant files == old(files) - ((set p | p in created[..k]) - claimed - stuck)
      {
        assert forall p :: p in created[..k + 1] <==> p in created[..k] || p == created[k];
        if created[k] !in claimed && created[k] !in stuck {
          files := files - {created[k]};
        }
      }
      assert created[..|created|] == created;
    }

    /** The first loop of `install`: existing artifacts must match, the others are missing. */
    method FindMissing(unit: Unit) returns (ok: bool, missing: seq<nat>)
      requires Snapshot(unit)
      ensures ok <==> ExistingMatch(digest, files, unit)
      ensures ok ==> AreMissing(files, unit, missing)
    {
      var paths := unit.entry.Paths();
      missing := [];
      for k := 0 to |paths|
        invariant forall j :: 0 <= j < k && paths[j] in files ==> Matches(digest, files, paths[j], unit.prints[j])
        invariant forall j: nat :: j in missing <==> j < k && paths[j] !in files
        invariant forall a, b :: 0 <= a < b < |missing| ==> missing[a] < missing[b]
      {
        if paths[k] !in files {
          assert forall a :: 0 <= a < |missing| ==> missing[a] in missing;
          missing := missing + [k];
        } else if digest(files[paths[k]]) != unit.prints[k] {
          return false, missing;
        }
      }
      ok := true;
    }

    /** The loop over the copied artifacts: link each one, never replacing a file. */
    method LinkMissing(unit: Unit, missing: seq<nat>, copies: seq<Bytes>, broken: set<nat>)
      returns (ok: bool, created: seq<string>)
      requires Snapshot(unit) && |copies| == |unit.prints| && AreMissing(files, unit, missing)
      requires forall k :: k in missing ==> digest(copies[k]) == unit.prints[k]
      modifies this`files
      ensures files.Keys == old(files).Keys + (set p | p in created)
      ensures forall p :: p in old(files) ==> files[p] == old(files)[p]
      ensures forall p :: p in created ==> p !in old(files) && p in unit.entry.Paths()
      ensures ok <==> forall k :: k in missing ==> k !in broken
      ensures ok ==> forall k :: k in missing ==> FirstLinked(digest, files, unit, k)
    {
      hide FirstLinked, FirstIndex, LinkedSoFar;
      var paths := unit.entry.Paths();
      created, ok := [], true;
      NothingLinked(digest, files, unit, missing);
      var n := 0;
      while n < |missing| && ok
        invariant n <= |missing|
        invariant LinkedSoFar(digest, old(files), files, unit, missing[..n], created)
        invariant forall k :: k in missing[..n] ==> k !in broken
        invariant !ok ==> exists k :: k in missing && k in broken
        decreases |missing| - n + if ok then 1 else 0
      {
        var k := missing[n];
        assert k in missing && missing[..n + 1] == missing[..n] + [k];
        if k in broken {
          ok := false;
        } else if paths[k] !in files {
          LinkAdds(digest, old(files), files, unit, missing, n, created, copies[k]);
          files := files[paths[k] := copies[k]];
          created := created + [paths[k]];
          n := n + 1;
        } else {
          LinkSkips(digest, old(files), files, unit, missing, n, created);
          FirstLinkedMatches(digest, files, unit, k);
          ok := digest(files[paths[k]]) == unit.prints[FirstIndex(paths, paths[k])];
          n := n + 1;
        }
      }
      LinkedFacts(digest, old(files), files, unit, missing[..n], created);
      assert ok ==> missing[..n] == missing;
    }

    /** Copy the missing artifacts and check the copies. */
    method CopiesMatch(unit: Unit, missing: seq<nat>, copies: seq<Bytes>) returns (ok: bool)
      requires |copies| == |unit.prints| && forall k :: k in missing ==> k < |unit.prints|
      ensures ok <==> forall k :: k in missing ==> digest(copies[k]) == unit.prints[k]
    {
      for n := 0 to |missing|
        invariant forall k :: k in missing[..n] ==> k < |unit.prints| && digest(copies[k]) == unit.prints[k]
      {
        assert missing[n] in missing;
        if digest(copies[missing[n]]) != unit.prints[missing[n]] {
          return false;
        }
        assert missing[..n + 1] == missing[..n] + [missing[n]];
      }
      assert missing[..|missing|] == missing;
      ok := true;
    }

    /** Link, commit, and roll back on any failure. */
    method Publish(unit: Unit, missing: seq<nat>, copies: seq<Bytes>, broken: set<nat>, written: bool)
      returns (ok: bool)
      requires Inv(Now()) && Snapshot(unit) && |copies| == |unit.prints|
      requires ExistingMatch(digest, files, unit) && AreMissing(files, unit, missing)
      requires forall k :: k in missing ==> digest(copies[k]) == unit.prints[k]
      modifies this
      ensures Inv(Now()) && installers == old(installers)
      ensures ok <==> old(Available(document, unit, false)) && written
                      && forall k :: k in missing ==> k !in broken && unit.prints[k] == FirstPrint(unit, k)
      ensures !ok ==> files == old(files) && document == old(document)
      ensures ok ==> document == old(Indexed(document, unit)) && AllMatch(digest, files, unit)
      ensures forall p :: p in old(files) ==> p in files && files[p] == old(files)[p]
      ensures forall p :: p in files && p !in old(files) ==> p in unit.entry.Paths()
    {
      hide Available, Claimed, Inverse, ClaimsDisjoint, Indexed, AllMatch, AreMissing, ExistingMatch, FirstLinked,
           FirstPrint;
      var created;
      ok, created := LinkMissing(unit, missing, copies, broken);
      assert Inv(Now());
      if ok {
        LinkedMatch(digest, old(files), files, unit, missing);
        ok := CommitUnit(unit, false, written);
      }
      if !ok {
        RollbackCreated(created, true, {});
        assert Claimed(document.models) <= old(files).Keys;
        assert files.Keys == old(files).Keys;
        assert files == old(files);
      }
    }

    /** `install` while no other command runs: all or nothing, and it succeeds exactly when the
        unit is installable and the registry file can be written. */
    method Install(unit: Unit, copies: seq<Bytes>, broken: set<nat>, written: bool) returns (ok: bool)
      requires Inv(Now()) && |copies| == |unit.prints|
      modifies this
      ensures Inv(Now()) && installers == old(installers)
      ensures ok <==> old(Installable(digest, files, document, unit, copies, broken)) && written
      ensures !ok ==> files == old(files) && document == old(document)
      ensures ok ==> document == old(Indexed(document, unit)) && AllMatch(digest, files, unit)
      ensures forall p :: p in old(files) ==> p in files && files[p] == old(files)[p]
      ensures forall p :: p in files && p !in old(files) ==> p in unit.entry.Paths()
      ensures unit.modelId in old(document).models ==> !ok
      ensures ok <==>
        old(Free(document.models, unit, false) && Obtainable(digest, files, unit, copies, broken)) && written
      ensures ok ==> document.models == old(document).models[unit.modelId := unit.entry] && Intact(digest, files, unit)
    {
      InstallableIff(digest, files, document, unit, copies, broken);
      SetModel(document, unit);
      hide Available, Inv, Indexed, AllMatch, AreMissing, ExistingMatch, FirstPrint, Free, Obtainable, Intact;
      ok := |unit.prints| == |unit.entry.Paths()|;
      if ok {
        ok := IsAvailable(unit, false);
      }
      if ok {
        var missing;
        ok, missing := FindMissing(unit);
        if ok {
          InstallableMissing(digest, files, unit, missing, copies, broken);
          ok := CopiesMatch(unit, missing, copies);
        }
        if ok {
          ok := Publish(unit, missing, copies, broken, written);
        }
      }
      AllMatchIffIntact(digest, files, unit);
    }

    /** `reset` */
    method Reset(id: string, written: bool) returns (removed: bool)
      requires Inv(Now())
      modifies this`document
      ensures Inv(Now()) && files == old(files)
      ensures removed <==> id in old(document).models && written
      ensures document.models == if removed then old(document).models - {id} else old(document).models
    {
      removed := false;
      if id in document.models {
        ResetKeepsInv(Now(), id);
        FewerModels(document.models, id);
        var normalized := Normalize(document.models - {id});
        if written {
          InverseIsUnique(normalized.value, WithoutModel(Now(), id).document);
          document := normalized.value;
          removed := true;
        }
      }
    }
  }

  lemma FewerModels(models: map<string, Entry>, id: string)
    requires !SharedHash(models)
    ensures !SharedHash(models - {id})
  {
  }

  lemma SetModel(d: Document, unit: Unit)
    ensures Indexed(d, unit).models == d.models[unit.modelId := unit.entry]
  {
  }
}

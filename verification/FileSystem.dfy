/** A file system shared with other writers. Every call first lets the others act, as the
    schedule says, and then performs one atomic operation, which may be made to fail. */
module Files {

  datatype Path = Path(dir: string, name: string)

  type Bytes = seq<bv8>

  /** What happens at one tick: the files other writers create, and whether the operation
      of this tick fails. */
  datatype Event = Event(created: map<Path, Bytes>, fault: bool)

  datatype MoveResult = Moved | TargetExists | MoveFailed

  /** Every entry of `a` is still in `b`, with the same bytes. */
  ghost predicate Kept(a: map<Path, Bytes>, b: map<Path, Bytes>) {
    forall p :: p in a ==> p in b && b[p] == a[p]
  }

  class FileSystem {
    var files: map<Path, Bytes>
    var clock: nat
    // The files split by who put them there: what other writers created since the start,
    // and everything else.
    ghost var born: map<Path, Bytes>
    ghost var ours: map<Path, Bytes>
    const schedule: nat -> Event
    // The finitely many paths other writers ever use.
    const world: set<Path>

    constructor (files: map<Path, Bytes>, schedule: nat -> Event, world: set<Path>)
      ensures Valid() && ours == files && born == map[] && clock == 0
      ensures this.files == files && this.schedule == schedule && this.world == world
    {
      this.files, this.schedule, this.world := files, schedule, world;
      clock, born, ours := 0, map[], files;
    }

    ghost predicate Valid()
      reads this
    {
      && files == ours + born
      && ours.Keys !! born.Keys
      && born.Keys <= world
    }

    lemma WhereFrom(path: Path)
      requires Valid() && path in files
      ensures path in ours || (path in born && path in world)
    {
    }

    lemma OwnersOfFiles()
      requires Valid()
      ensures files.Keys == ours.Keys + born.Keys && born.Keys <= world && files.Keys <= ours.Keys + world
    {
    }

    lemma SplitsByOwner()
      requires Valid()
      ensures files == ours + born
    {
    }

    /** Some operation between the two ticks was made to fail. */
    ghost predicate FaultBetween(from: nat, to: nat) {
      exists t: nat :: from <= t < to && schedule(t).fault
    }

    /** What other writers add to `present` at tick `t`: only paths of `world` that do not
        exist yet. */
    function Intrusion(t: nat, present: map<Path, Bytes>): (more: map<Path, Bytes>)
      ensures more.Keys <= world && more.Keys !! present.Keys
    {
      map p | p in schedule(t).created && p in world && p !in present :: schedule(t).created[p]
    }

    /** Other writers may have added files; the rest is as it was. */
    twostate predicate OthersOnly()
      reads this
    {
      && Valid()
      && old(clock) <= clock
      && ours == old(ours)
      && Kept(old(born), born)
    }

    method Interfere()
      requires Valid()
      modifies this
      ensures OthersOnly() && clock == old(clock) + 1
      ensures born == old(born) + Intrusion(old(clock), old(files))
    {
      var arrived := Intrusion(clock, files);
      files, born, clock := files + arrived, born + arrived, clock + 1;
    }

    /** `os.path.lexists` */
    method Lexists(path: Path) returns (present: bool)
      requires Valid()
      modifies this
      ensures OthersOnly() && clock == old(clock) + 1 && old(files.Keys) <= files.Keys
      ensures present <==> path in files
    {
      Interfere();
      present := path in files;
    }

    /** `os.makedirs`: directories are not modelled, but the call may fail. */
    method MakeDirs() returns (ok: bool)
      requires Valid()
      modifies this
      ensures OthersOnly() && clock == old(clock) + 1
      ensures ok <==> !schedule(old(clock)).fault
    {
      Interfere();
      ok := !schedule(clock - 1).fault;
    }

    /** The source leaves, the target holds its bytes. */
    static function Relocated(files: map<Path, Bytes>, source: Path, target: Path): map<Path, Bytes>
      requires source in files
    {
      (files - {source})[target := files[source]]
    }

    /** The atomic create-if-absent move of `_move_no_replace`. */
    method MoveNoReplace(source: Path, target: Path) returns (m: MoveResult)
      requires Valid() && source in ours && source != target
      modifies this
      ensures Valid() && clock == old(clock) + 1 && Kept(old(born), born)
      ensures m.MoveFailed? <==> schedule(old(clock)).fault
      ensures m.TargetExists? ==> target in files
      ensures m.Moved? ==> target !in old(ours) && target !in born
      ensures ours == if m.Moved? then Relocated(old(ours), source, target) else old(ours)
    {
      Interfere();
      if schedule(clock - 1).fault {
        m := MoveFailed;
      } else if target in files {
        m := TargetExists;
      } else {
        files := (files - {source})[target := files[source]];
        ours := (ours - {source})[target := ours[source]];
        m := Moved;
      }
    }

    /** `os.replace` between paths no other writer uses. */
    method Replace(source: Path, target: Path) returns (ok: bool)
      requires Valid() && source in ours && source != target && target !in world
      modifies this
      ensures Valid() && clock == old(clock) + 1 && Kept(old(born), born)
      ensures ok <==> !schedule(old(clock)).fault
      ensures ours == if ok then Relocated(old(ours), source, target) else old(ours)
    {
      Interfere();
      ok := !schedule(clock - 1).fault;
      if ok {
        files := (files - {source})[target := files[source]];
        ours := (ours - {source})[target := ours[source]];
      }
    }

    /** A rollback move: `os.replace`, assumed not to fail. */
    method MoveBack(source: Path, target: Path)
      requires Valid() && source in ours && source != target && target !in world
      modifies this
      ensures Valid() && clock == old(clock) + 1 && Kept(old(born), born)
      ensures ours == Relocated(old(ours), source, target)
    {
      Interfere();
      files := (files - {source})[target := files[source]];
      ours := (ours - {source})[target := ours[source]];
    }

    /** `os.unlink` of a file no other writer created. */
    method Unlink(path: Path) returns (ok: bool)
      requires Valid() && path in ours
      modifies this
      ensures Valid() && clock == old(clock) + 1 && Kept(old(born), born)
      ensures ok <==> !schedule(old(clock)).fault
      ensures ours == if ok then old(ours) - {path} else old(ours)
    {
      Interfere();
      ok := !schedule(clock - 1).fault;
      if ok {
        files := files - {path};
        ours := ours - {path};
      }
    }
  }
}

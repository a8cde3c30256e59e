/**
 Publication of build outputs.  The new program and its native sidecar directory are prepared in
 a scratch directory and moved into place; the old ones are moved into scratch first, so that
 they can be put back.  Any file operation may fail.
 */
module Publication {
  import opened Wrappers

  /** The paths involved: two public ones, and four inside the scratch directory. */
  datatype Place = Output | Sidecar | NewProgram | NewSidecar | OldProgram | OldSidecar

  predicate InScratch(p: Place) { !p.Output? && !p.Sidecar? }

  datatype Node = File(id: nat) | Dir(id: nat, entries: set<string>) | Link(id: nat, toDir: bool)

  /** Following links, as `is_dir` does. */
  predicate IsDir(n: Node) { n.Dir? || (n.Link? && n.toDir) }

  type Disk = map<Place, Node>

  function At(d: Disk, p: Place): Option<Node> { if p in d then Some(d[p]) else None }

  /** The file system lets `from` take the place `to`. */
  predicate Movable(d: Disk, from: Place, to: Place) {
    && from in d
    && (to in d ==> if d[from].Dir? then d[to].Dir? && d[to].entries == {} else !d[to].Dir?)
  }

  function Moved(d: Disk, from: Place, to: Place): Disk
    requires from in d
  {
    d[to := d[from]] - {from}
  }

  // ---- what publication promises ------------------------------------------------------

  predicate HasSidecar(d: Disk) { NewSidecar in d && d[NewSidecar].Dir? && d[NewSidecar].entries != {} }

  /** The new program is in place, and the sidecar is the new one, if the build deals with it. */
  predicate Installed(d: Disk, e: Disk, native: bool) {
    && At(d, NewProgram).Some? && At(e, Output) == At(d, NewProgram)
    && At(e, Sidecar) == if !native then At(d, Sidecar) else if HasSidecar(d) then At(d, NewSidecar) else None
  }

  predicate Unchanged(d: Disk, e: Disk) { At(e, Output) == At(d, Output) && At(e, Sidecar) == At(d, Sidecar) }

  /** Each old artifact is where it was or in scratch. */
  predicate Preserved(d: Disk, e: Disk) {
    && (Output in d ==> At(e, Output) == At(d, Output) || At(e, OldProgram) == At(d, Output))
    && (Sidecar in d ==> At(e, Sidecar) == At(d, Sidecar) || At(e, OldSidecar) == At(d, Sidecar))
  }

  /** What the checks before the first move refuse. */
  predicate Refused(d: Disk, native: bool) {
    || (Output in d && IsDir(d[Output]))
    || (native && Sidecar in d && !IsDir(d[Sidecar]))
    || (native && (NewSidecar !in d || !d[NewSidecar].Dir?))
  }

  class Publisher {
    var disk: Disk
    var preserve: bool
    var step: nat
    /** Whether the `n`-th operation fails, and what a failing removal of the sidecar or of
        scratch leaves behind. */
    const fails: nat -> bool
    const spares: nat -> set<string>
    const keeps: nat -> set<Place>

    constructor (disk: Disk, fails: nat -> bool, spares: nat -> set<string>, keeps: nat -> set<Place>)
      ensures this.disk == disk && !preserve && this.fails == fails && this.spares == spares && this.keeps == keeps
    {
      this.disk, this.fails, this.spares, this.keeps := disk, fails, spares, keeps;
      preserve, step := false, 0;
    }

    method Rename(from: Place, to: Place) returns (ok: bool)
      requires from != to
      modifies this`disk, this`step
      ensures step == old(step) + 1 && (ok <==> !fails(step) && Movable(old(disk), from, to))
      ensures ok ==> disk == Moved(old(disk), from, to)
      ensures !ok ==> disk == old(disk)
    {
      step := step + 1;
      ok := !fails(step) && Movable(disk, from, to);
      if ok {
        disk := Moved(disk, from, to);
      }
    }

    /** Removes a directory; a failure may leave any part of it. */
    method RemoveDirAll(p: Place) returns (ok: bool)
      modifies this`disk, this`step
      ensures step == old(step) + 1 && (ok <==> !fails(step) && p in old(disk) && old(disk)[p].Dir?)
      ensures forall q :: q != p ==> At(disk, q) == At(old(disk), q)
      ensures ok ==> p !in disk
    {
      step := step + 1;
      if p !in disk || !disk[p].Dir? {
        return false;
      }
      if fails(step) {
        disk := disk[p := Dir(disk[p].id, disk[p].entries * spares(step))];
        return false;
      }
      disk := disk - {p};
      return true;
    }

    method ReadDir(p: Place) returns (r: Option<bool>)
      modifies this`step
      ensures step == old(step) + 1
      ensures r.Some? ==> p in disk && disk[p].Dir? && r.value == (disk[p].entries != {})
      ensures p in disk && disk[p].Dir? && (forall n :: !fails(n)) ==> r.Some?
    {
      step := step + 1;
      if fails(step) || p !in disk || !disk[p].Dir? {
        return None;
      }
      return Some(disk[p].entries != {});
    }

    /** One of the operations after `first`, up to `last`, failed. */
    ghost predicate FailedWithin(first: nat, last: nat) { exists n :: first < n <= last && fails(n) }

    /** Moves the outputs into place, or puts everything back. */
    method Publish(native: bool) returns (ok: bool)
      requires !preserve && OldProgram !in disk && OldSidecar !in disk
      modifies this
      ensures ok ==> !preserve && Installed(old(disk), disk, native)
      ensures !ok && !preserve ==> Unchanged(old(disk), disk)
      ensures !ok && preserve ==> Preserved(old(disk), disk)
      ensures preserve ==> !ok && FailedWithin(old(step) + 1, step)
      ensures Refused(old(disk), native) ==> !ok && !preserve && disk == old(disk)
      ensures && (forall n :: !fails(n)) && !Refused(old(disk), native)
              && At(old(disk), NewProgram).Some? && old(disk)[NewProgram].File?
              ==> ok
    {
      if Output in disk && IsDir(disk[Output]) {
        return false;
      }
      var hasNative := false;
      if native {
        if Sidecar in disk && !IsDir(disk[Sidecar]) {
          return false;
        }
        var listed := ReadDir(NewSidecar);
        if listed.None? {
          return false;
        }
        hasNative := listed.value;
      }
      var hadOutput := Output in disk;
      if hadOutput {
        var saved := Rename(Output, OldProgram);
        if !saved {
          return false;
        }
      }
      var hadNative := native && Sidecar in disk;
      if native {
        ok := MoveSidecar(hadOutput, hadNative, hasNative);
        if !ok {
          return false;
        }
      }
      ok := Rename(NewProgram, Output);
      if !ok {
        Rollback(hadOutput, native, hadNative, hasNative);
      }
    }

    /** The old sidecar moves out and the new one in; on failure everything is put back. */
    method MoveSidecar(hadOutput: bool, hadNative: bool, hasNative: bool) returns (ok: bool)
      requires !preserve && OldSidecar !in disk && (hadNative <==> Sidecar in disk)
      requires hadOutput ==> OldProgram in disk && Output !in disk
      requires NewSidecar in disk && disk[NewSidecar].Dir?
      modifies this
      ensures old(step) <= step
      ensures ok ==>
                var out := if hadNative then Moved(old(disk), Sidecar, OldSidecar) else old(disk);
                !preserve && disk == if hasNative then Moved(out, NewSidecar, Sidecar) else out
      ensures !ok && !preserve ==>
                && At(disk, Output) == (if hadOutput then At(old(disk), OldProgram) else At(old(disk), Output))
                && At(disk, Sidecar) == At(old(disk), Sidecar)
      ensures !ok && hadOutput ==>
                At(disk, Output) == At(old(disk), OldProgram) || At(disk, OldProgram) == At(old(disk), OldProgram)
      ensures !ok && !hadOutput ==> At(disk, Output) == At(old(disk), Output)
      ensures !ok && hadNative ==>
                At(disk, Sidecar) == At(old(disk), Sidecar) || At(disk, OldSidecar) == At(old(disk), Sidecar)
      ensures preserve ==> FailedWithin(old(step) + 1, step)
      ensures (forall n :: !fails(n)) && (hadNative ==> !old(disk)[Sidecar].File?) ==> ok
    {
      if hadNative {
        ok := Rename(Sidecar, OldSidecar);
        if !ok {
          Rollback(hadOutput, false, false, false);
          return false;
        }
      }
      if hasNative {
        ok := Rename(NewSidecar, Sidecar);
        if !ok {
          Rollback(hadOutput, true, hadNative, false);
          return false;
        }
      }
      return true;
    }

    /** Puts the saved artifacts back; scratch is kept if that fails anywhere. */
    method Rollback(hadOutput: bool, native: bool, hadNative: bool, installedNative: bool)
      requires !preserve
      requires hadOutput ==> OldProgram in disk && Output !in disk
      requires native && hadNative ==> OldSidecar in disk
      requires native && !installedNative ==> Sidecar !in disk
      requires installedNative ==> Sidecar in disk && disk[Sidecar].Dir?
      modifies this
      ensures old(step) <= step && (preserve <==> FailedWithin(old(step), step))
      ensures !preserve ==> At(disk, Output) == if hadOutput then At(old(disk), OldProgram) else At(old(disk), Output)
      ensures !preserve ==>
                At(disk, Sidecar) ==
                if !native then At(old(disk), Sidecar) else if hadNative then At(old(disk), OldSidecar) else None
      ensures hadOutput ==>
                At(disk, Output) == At(old(disk), OldProgram) || At(disk, OldProgram) == At(old(disk), OldProgram)
      ensures native && hadNative ==>
                At(disk, Sidecar) == At(old(disk), OldSidecar) || At(disk, OldSidecar) == At(old(disk), OldSidecar)
      ensures !native ==> At(disk, Sidecar) == At(old(disk), Sidecar)
      ensures !hadOutput ==> At(disk, Output) == At(old(disk), Output)
    {
      var failed := false;
      if native {
        if installedNative {
          var removed := RemoveDirAll(Sidecar);
          failed := !removed;
          assert failed <==> fails(step);
          assert Sidecar in disk ==> failed;
        }
        if hadNative {
          assert At(disk, OldSidecar) == At(old(disk), OldSidecar);
          var restored := Rename(OldSidecar, Sidecar);
          assert !failed ==> (restored <==> !fails(step));
          failed := failed || !restored;
        }
      }
      if hadOutput {
        assert At(disk, OldProgram) == At(old(disk), OldProgram) && At(disk, Output) == At(old(disk), Output);
        var restored := Rename(OldProgram, Output);
        assert restored <==> !fails(step);
        failed := failed || !restored;
      }
      if failed {
        preserve := true;
      }
    }

    /** Scratch is removed, as far as that works, unless it must be kept. */
    method Drop()
      modifies this
      ensures preserve == old(preserve) && (preserve ==> disk == old(disk) && step == old(step))
      ensures !preserve ==> step == old(step) + 1 && forall p :: p in disk && InScratch(p) ==> fails(step)
      ensures forall p :: !InScratch(p) ==> At(disk, p) == At(old(disk), p)
    {
      if !preserve {
        step := step + 1;
        disk := map p | p in disk && (!InScratch(p) || (fails(step) && p in keeps(step))) :: disk[p];
      }
    }

    /** A build that publishes and then lets go of its scratch directory: all of the new outputs,
        none of them, or the old artifacts in hand. */
    method Build(native: bool) returns (ok: bool)
      requires !preserve && OldProgram !in disk && OldSidecar !in disk
      modifies this
      ensures ok ==> Installed(old(disk), disk, native)
      ensures !ok && !preserve ==> Unchanged(old(disk), disk)
      ensures !ok && preserve ==> Preserved(old(disk), disk)
      ensures preserve ==> !ok && FailedWithin(old(step) + 1, step)
      ensures !preserve && !fails(step) ==> forall p :: p in disk ==> !InScratch(p)
    {
      ok := Publish(native);
      Drop();
    }
  }
}

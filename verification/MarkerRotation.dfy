/** Size-based rotation of the marker log: numbered renames, best effort. */
module MarkerRotation {

  /** Entry 0 is the live file; entry i is generation `.i`. */
  type Files<L> = map<nat, L>

  /** Which file operations succeed: the unlink of the oldest generation, and
      each rename `.i` to `.(i+1)` (rename 0 moves the live file). */
  datatype Disk = Disk(unlinkOk: bool, renameOk: nat -> bool)

  /** `max(1, int(keep))` */
  function Keep(keep: int): nat {
    if keep < 1 then 1 else keep
  }

  /** The file moves up one number. */
  predicate MovesUp<L>(files: Files<L>, keep: nat, disk: Disk, i: nat) {
    i in files && i < keep && disk.renameOk(i)
  }

  /** The file is where it was. */
  predicate Stays<L>(files: Files<L>, keep: nat, disk: Disk, i: nat) {
    i in files && !MovesUp(files, keep, disk, i) && (i == keep ==> !disk.unlinkOk)
  }

  /** What a generation holds afterwards: a file that moved up replaces one that
      stayed. */
  ghost predicate HoldsAfter<L(!new)>(files: Files<L>, keep: nat, disk: Disk, after: Files<L>, i: nat) {
    if i > 0 && MovesUp(files, keep, disk, i - 1) then i in after && after[i] == files[i - 1]
    else if Stays(files, keep, disk, i) then i in after && after[i] == files[i]
    else i !in after
  }

  function Candidates<L>(files: Files<L>): set<nat> {
    files.Keys + set j | j in files :: j + 1
  }

  function AfterRotation<L>(files: Files<L>, keep: nat, disk: Disk): Files<L> {
    map i: nat | i in Candidates(files) && ((i > 0 && MovesUp(files, keep, disk, i - 1)) || Stays(files, keep, disk, i))
      :: if i > 0 && MovesUp(files, keep, disk, i - 1) then files[i - 1] else files[i]
  }

  lemma AfterRotationHolds<L(!new)>(files: Files<L>, keep: nat, disk: Disk, i: nat)
    ensures HoldsAfter(files, keep, disk, AfterRotation(files, keep, disk), i)
  {
  }

  /** The result of a rotation is fixed by its description. */
  lemma HoldsAfterUnique<L(!new)>(files: Files<L>, keep: nat, disk: Disk, after: Files<L>)
    requires forall i: nat :: HoldsAfter(files, keep, disk, after, i)
    ensures after == AfterRotation(files, keep, disk)
  {
    var b := AfterRotation(files, keep, disk);
    forall i: nat ensures (i in after <==> i in b) && (i in after ==> after[i] == b[i]) {
      assert HoldsAfter(files, keep, disk, after, i);
      AfterRotationHolds(files, keep, disk, i);
    }
  }

  datatype Action = NoAction | Rotated | RotationFailed

  class MarkerFiles<L(!new)> {
    var files: Files<L>

    /** `size` is the byte size of the live file, where it can be read. */
    method Rotate(oversize: bool, keepSetting: int, disk: Disk) returns (action: Action)
      modifies this
      ensures 0 !in old(files) || !oversize ==> action == NoAction && files == old(files)
      ensures 0 in old(files) && oversize ==>
                && files == AfterRotation(old(files), if keepSetting >= 1 then keepSetting else 1, disk)
                && action == (if disk.renameOk(0) then Rotated else RotationFailed)
    {
      if 0 !in files || !oversize {
        return NoAction;
      }
      var keep := Keep(keepSetting);
      ghost var before := files;
      if keep in files && disk.unlinkOk {
        files := files - {keep};
      }
      var i: nat := keep - 1;
      while i > 0
        invariant i < keep
        invariant forall j: nat | j <= i :: j in files <==> j in before
        invariant forall j: nat | j <= i && j in files :: files[j] == before[j]
        invariant i + 1 in files <==> (Stays(before, keep, disk, i + 1))
        invariant i + 1 in files ==> files[i + 1] == before[i + 1]
        invariant forall j: nat | j > i + 1 :: HoldsAfter(before, keep, disk, files, j)
      {
        ghost var was := files;
        if i in files && disk.renameOk(i) {
          files := (files - {i})[i + 1 := files[i]];
        }
        forall j: nat | j > i ensures HoldsAfter(before, keep, disk, files, j) {
          if j > i + 1 { assert HoldsAfter(before, keep, disk, was, j); }
        }
        i := i - 1;
      }
      ghost var was := files;
      if disk.renameOk(0) {
        files := (files - {0})[1 := files[0]];
        action := Rotated;
      } else {
        action := RotationFailed;
      }
      forall j: nat ensures HoldsAfter(before, keep, disk, files, j) {
        if j > 1 { assert HoldsAfter(before, keep, disk, was, j); }
      }
      HoldsAfterUnique(before, keep, disk, files);
    }
  }

  const FLAWLESS := Disk(true, i => true)

  /** The exact shift: live to `.1`, `.i` to `.i+1`, the old `.keep` dropped, a
      gap moves up as a gap, and numbers above `keep` are untouched. */
  function Shifted<L>(files: Files<L>, keep: nat): Files<L> {
    map i: nat | i in Candidates(files) && (if i <= keep then i > 0 && i - 1 in files else i in files)
      :: if i <= keep then files[i - 1] else files[i]
  }

  lemma FlawlessIsShift<L(!new)>(files: Files<L>, keep: nat)
    requires keep >= 1 && 0 in files
    ensures AfterRotation(files, keep, FLAWLESS) == Shifted(files, keep)
  {
    forall i: nat ensures HoldsAfter(files, keep, FLAWLESS, Shifted(files, keep), i) {}
    HoldsAfterUnique(files, keep, FLAWLESS, Shifted(files, keep));
  }

  /** With a setting of at least one that many generations are kept; a smaller one
      keeps one: the live log becomes `.1`, the old `.1` is dropped, and higher
      numbers are untouched. */
  lemma FlawlessSetting<L(!new)>(files: Files<L>, setting: int)
    requires 0 in files
    ensures setting >= 1 ==> AfterRotation(files, Keep(setting), FLAWLESS) == Shifted(files, setting)
    ensures setting < 1 ==> AfterRotation(files, Keep(setting), FLAWLESS) == (files - {0})[1 := files[0]]
  {
    FlawlessIsShift(files, Keep(setting));
    var one := (files - {0})[1 := files[0]];
    if setting < 1 {
      forall i: nat ensures (i in Shifted(files, 1) <==> i in one) && (i in one ==> Shifted(files, 1)[i] == one[i]) {}
    }
  }

  /** Whatever operations fail, the live log is not lost: it is in `.1`, or it
      is still live and the action says so.  No generation is invented: each
      one kept its log or took its predecessor's. */
  lemma RotationNeverLosesLiveLog<L(!new)>(files: Files<L>, keep: nat, disk: Disk)
    requires keep >= 1 && 0 in files
    ensures var after := AfterRotation(files, keep, disk);
            && (if disk.renameOk(0) then 0 !in after && 1 in after && after[1] == files[0]
                else 0 in after && after[0] == files[0])
            && (forall i | i in after ::
                  (i in files && after[i] == files[i]) || (i > 0 && i - 1 in files && after[i] == files[i - 1]))
            && (forall i | i > keep :: (i in after <==> i in files) && (i in files ==> after[i] == files[i]))
  {
    var after := AfterRotation(files, keep, disk);
    AfterRotationHolds(files, keep, disk, 0);
    AfterRotationHolds(files, keep, disk, 1);
    forall i: nat ensures HoldsAfter(files, keep, disk, after, i) { AfterRotationHolds(files, keep, disk, i); }
    forall i | i > keep ensures (i in after <==> i in files) && (i in files ==> after[i] == files[i]) {
      assert HoldsAfter(files, keep, disk, after, i);
    }
  }

  /** The files after the live logs `logs` were each written and rotated away. */
  function AfterRotations<L>(logs: seq<L>, keep: nat): Files<L> {
    if logs == [] then map[]
    else Shifted(AfterRotations(logs[..|logs| - 1], keep)[0 := logs[|logs| - 1]], keep)
  }

  /** After any number of nights the generations are the most recent logs,
      newest first, and nothing else is on disk. */
  lemma {:induction false} GenerationsAreNewestFirst<L>(logs: seq<L>, keep: nat)
    requires keep >= 1
    ensures forall i: nat :: i in AfterRotations(logs, keep) <==> 1 <= i <= keep && i <= |logs|
    ensures forall i: nat | i in AfterRotations(logs, keep) :: AfterRotations(logs, keep)[i] == logs[|logs| - i]
  {
    if logs != [] {
      var earlier := logs[..|logs| - 1];
      GenerationsAreNewestFirst(earlier, keep);
      var before := AfterRotations(earlier, keep)[0 := logs[|logs| - 1]];
      var after := AfterRotations(logs, keep);
      forall i: nat
        ensures i in after <==> 1 <= i <= keep && i <= |logs|
        ensures i in after ==> after[i] == logs[|logs| - i]
      {
        if i > 0 { assert i - 1 in before <==> (i - 1 == 0 || i - 1 in AfterRotations(earlier, keep)); }
      }
    }
  }
}

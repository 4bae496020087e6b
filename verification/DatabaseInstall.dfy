/** deploy/scripts/deploy_control_plane/database.py: replacing the production
    database by a backup image through a quarantine of main, WAL and SHM.

    Every file step may succeed, fail without effect, or coincide with a crash
    that happened before or after it.  A crash is an exit of the method, so each
    postcondition below holds at every crash point. */
module DatabaseInstall {
  import opened Common

  datatype Part = Main | Wal | Shm

  const PARTS: seq<Part> := [Main, Wal, Shm]

  /** The paths of the data directory.  `Restore` and `Rollback` are the two glob
      families that count as recovery artifacts; `CopyTemp` is not one of them. */
  datatype Path =
    | Live(part: Part)
    | Restore(token: nat)
    | Rollback(token: nat, part: Part)
    | CopyTemp(token: nat)

  lemma AllParts()
    ensures forall part: Part :: part in PARTS
  {
    assert PARTS[0] == Main && PARTS[1] == Wal && PARTS[2] == Shm;
    forall part: Part ensures part in PARTS {
      match part case Main => case Wal => case Shm =>
    }
  }

  ghost predicate Distinct(parts: seq<Part>) {
    forall i, j :: 0 <= i < j < |parts| ==> parts[i] != parts[j]
  }

  type Content = seq<int>
  type Files = map<Path, Content>
  type Triple = map<Part, Content>

  predicate IsArtifact(p: Path) { p.Restore? || p.Rollback? }

  ghost predicate NoArtifacts(files: Files) {
    forall p <- files :: !IsArtifact(p)
  }

  /** The live main/WAL/SHM files. */
  function LiveFiles(files: Files): Triple {
    map part: Part | Live(part) in files :: files[Live(part)]
  }

  /** A database that consists of the backup image and has no sidecar. */
  function ImageAlone(image: Content): Triple { map[Main := image] }

  /** Every original file is still at its own path or in its quarantine. */
  ghost predicate OriginalsKept(files: Files, original: Triple, token: nat) {
    forall part <- original ::
      || (Live(part) in files && files[Live(part)] == original[part])
      || (Rollback(token, part) in files && files[Rollback(token, part)] == original[part])
  }

  /** With no artifact left the database is whole: all old or all new. */
  ghost predicate Settled(files: Files, original: Triple, image: Content) {
    NoArtifacts(files) ==> LiveFiles(files) == original || LiveFiles(files) == ImageAlone(image)
  }

  function Moved(files: Files, src: Path, dst: Path): Files
    requires src in files
  {
    (files - {src})[dst := files[src]]
  }

  /** Where the protocol stands: which originals are in quarantine, whether the
      prepared copy is still unpublished, and what is live. */
  ghost predicate Stage(files: Files, token: nat, live: Triple, quarantined: Triple, prepared: Option<Content>) {
    && LiveFiles(files) == live
    && (forall part: Part :: Rollback(token, part) in files <==> part in quarantined)
    && (forall part <- quarantined :: Rollback(token, part) in files && files[Rollback(token, part)] == quarantined[part])
    && (Restore(token) in files <==> prepared.Some?)
    && (prepared.Some? ==> Restore(token) in files && files[Restore(token)] == prepared.value)
    && (forall p <- files :: IsArtifact(p) ==> p.token == token)
  }

  function Only(t: Triple, parts: set<Part>): Triple {
    map part | part in t && part in parts :: t[part]
  }

  /** What is live while `away` is in quarantine and the image is published or not. */
  function LiveNow(original: Triple, image: Content, away: set<Part>, installed: bool): Triple {
    if installed then (original - away)[Main := image] else original - away
  }

  /** Every state the protocol passes through before the new image is verified,
      going forward or backward. */
  ghost predicate Mid(
    files: Files, token: nat, original: Triple, image: Content,
    away: set<Part>, installed: bool, prepared: bool)
  {
    && away <= original.Keys
    && (installed ==> !prepared && (Main in away || (Main !in original && away == original.Keys)))
    && Stage(files, token, LiveNow(original, image, away, installed), Only(original, away),
             if prepared then Some(image) else None)
  }

  /** Every state after verification, while the quarantine is being emptied. */
  ghost predicate Cleaning(files: Files, token: nat, original: Triple, image: Content, left: set<Part>) {
    Stage(files, token, ImageAlone(image), Only(original, left), None)
  }

  lemma MidIsSafe(
    files: Files, token: nat, original: Triple, image: Content,
    away: set<Part>, installed: bool, prepared: bool)
    requires Mid(files, token, original, image, away, installed, prepared)
    ensures Settled(files, original, image)
    ensures OriginalsKept(files, original, token)
  {
    var live := LiveNow(original, image, away, installed);
    assert forall part <- away :: part in Only(original, away) && Rollback(token, part) in files;
    if NoArtifacts(files) {
      assert away == {};
      assert !prepared;
      assert installed ==> original.Keys == {};
      assert original - away == original;
    }
    forall part | part in original
      ensures
        || (Live(part) in files && files[Live(part)] == original[part])
        || (Rollback(token, part) in files && files[Rollback(token, part)] == original[part])
    {
      if part in away {
        assert part in Only(original, away);
      } else {
        assert part in live && LiveFiles(files)[part] == original[part];
      }
    }
  }

  lemma CleaningIsSettled(files: Files, token: nat, original: Triple, image: Content, left: set<Part>)
    requires Cleaning(files, token, original, image, left)
    ensures Settled(files, original, image)
  {
  }

  lemma StageNames(files: Files, token: nat, live: Triple, quarantined: Triple, prepared: Option<Content>, part: Part)
    requires Stage(files, token, live, quarantined, prepared)
    ensures Live(part) in files <==> part in live
    ensures part in live ==> files[Live(part)] == live[part]
  {
    assert part in LiveFiles(files) <==> part in live;
  }

  /** Renaming a live file away takes exactly that part out of the live triple. */
  lemma LiveMovedAway(files: Files, part: Part, dst: Path)
    requires Live(part) in files && !dst.Live?
    ensures LiveFiles(Moved(files, Live(part), dst)) == LiveFiles(files) - {part}
  {
  }

  lemma QuarantineOne(files: Files, token: nat, original: Triple, image: Content, away: set<Part>, part: Part)
    requires Mid(files, token, original, image, away, false, true)
    requires Live(part) in files
    ensures part in original && part !in away
    ensures Mid(Moved(files, Live(part), Rollback(token, part)), token, original, image, away + {part}, false, true)
  {
    StageNames(files, token, original - away, Only(original, away), Some(image), part);
    LiveMovedAway(files, part, Rollback(token, part));
    assert (original - away) - {part} == original - (away + {part});
    QuarantinedMore(files, token, original, away, part);
  }

  lemma QuarantinedMore(files: Files, token: nat, original: Triple, away: set<Part>, part: Part)
    requires Live(part) in files && part in original && files[Live(part)] == original[part]
    requires forall q: Part :: Rollback(token, q) in files <==> q in Only(original, away)
    requires forall q <- Only(original, away) :: files[Rollback(token, q)] == original[q]
    ensures
      var after := Moved(files, Live(part), Rollback(token, part));
      && (forall q: Part :: Rollback(token, q) in after <==> q in Only(original, away + {part}))
      && (forall q <- Only(original, away + {part}) :: after[Rollback(token, q)] == original[q])
  {
  }

  lemma Publish(files: Files, token: nat, original: Triple, image: Content)
    requires Mid(files, token, original, image, original.Keys, false, true)
    ensures Restore(token) in files
    ensures Mid(Moved(files, Restore(token), Live(Main)), token, original, image, original.Keys, true, false)
  {
    var after := Moved(files, Restore(token), Live(Main));
    var live := original - original.Keys;
    forall q: Part ensures Live(q) in after <==> q == Main {
      StageNames(files, token, live, Only(original, original.Keys), Some(image), q);
    }
    assert LiveFiles(after) == live[Main := image];
  }

  lemma BringBackOne(
    files: Files, token: nat, original: Triple, image: Content,
    away: set<Part>, installed: bool, prepared: bool, part: Part)
    requires Mid(files, token, original, image, away, installed, prepared)
    requires part in away && (installed ==> Main in away)
    ensures Rollback(token, part) in files
    ensures Mid(Moved(files, Rollback(token, part), Live(part)), token, original, image,
                away - {part}, installed && part != Main, prepared)
  {
    assert part in Only(original, away);
    var after := Moved(files, Rollback(token, part), Live(part));
    var live := LiveNow(original, image, away, installed);
    var live' := LiveNow(original, image, away - {part}, installed && part != Main);
    forall q: Part
      ensures q in LiveFiles(after) <==> q in live'
      ensures q in live' ==> LiveFiles(after)[q] == live'[q]
    {
      StageNames(files, token, live, Only(original, away), if prepared then Some(image) else None, q);
    }
    assert LiveFiles(after) == live';
  }

  lemma DropPublished(
    files: Files, token: nat, original: Triple, image: Content, installed: bool, part: Part)
    requires Mid(files, token, original, image, original.Keys, installed, false)
    requires part !in original
    ensures Mid(files - {Live(part)}, token, original, image, original.Keys, installed && part != Main, false)
  {
    var after := files - {Live(part)};
    var live := LiveNow(original, image, original.Keys, installed);
    var live' := LiveNow(original, image, original.Keys, installed && part != Main);
    forall q: Part
      ensures q in LiveFiles(after) <==> q in live'
      ensures q in live' ==> LiveFiles(after)[q] == live'[q]
    {
      StageNames(files, token, live, Only(original, original.Keys), None, q);
    }
    assert LiveFiles(after) == live';
  }

  lemma DropPrepared(
    files: Files, token: nat, original: Triple, image: Content,
    away: set<Part>, installed: bool, prepared: bool)
    requires Mid(files, token, original, image, away, installed, prepared)
    ensures Mid(files - {Restore(token)}, token, original, image, away, installed, false)
  {
    assert LiveFiles(files - {Restore(token)}) == LiveFiles(files);
  }

  lemma DropQuarantine(files: Files, token: nat, original: Triple, image: Content, left: set<Part>, part: Part)
    requires Cleaning(files, token, original, image, left)
    ensures Cleaning(files - {Rollback(token, part)}, token, original, image, left - {part})
  {
    assert LiveFiles(files - {Rollback(token, part)}) == LiveFiles(files);
  }

  /** Paths other than the temporary and the prepared file are as before. */
  lemma CopyLeavesOthers(before: Files, after: Files, token: nat, image: Content, p: Path)
    requires
      || after - {CopyTemp(token)} == before - {CopyTemp(token)}
      || after == (before - {CopyTemp(token)})[Restore(token) := image]
    requires p != CopyTemp(token) && p != Restore(token)
    ensures p in after <==> p in before
    ensures p in before ==> after[p] == before[p]
  {
    assert p in after - {CopyTemp(token)} <==> p in after;
    assert p in before - {CopyTemp(token)} <==> p in before;
    if p in before && after - {CopyTemp(token)} == before - {CopyTemp(token)} {
      assert (after - {CopyTemp(token)})[p] == (before - {CopyTemp(token)})[p];
    }
  }

  /** Copying the image either left the directory as it was or added the prepared file. */
  lemma PreparedState(before: Files, after: Files, token: nat, original: Triple, image: Content)
    requires NoArtifacts(before) && LiveFiles(before) == original
    requires
      || after - {CopyTemp(token)} == before - {CopyTemp(token)}
      || after == (before - {CopyTemp(token)})[Restore(token) := image]
    ensures Mid(after, token, original, image, {}, false, Restore(token) in after)
    ensures after == (before - {CopyTemp(token)})[Restore(token) := image] ==> Restore(token) in after
  {
    assert original - {} == original && Only(original, {}) == map[];
    forall p: Path | p != CopyTemp(token) && p != Restore(token)
      ensures (p in after <==> p in before) && (p in before ==> after[p] == before[p])
    {
      CopyLeavesOthers(before, after, token, image, p);
    }
    if Restore(token) in after {
      assert Restore(token) !in before;
      assert Restore(token) in after - {CopyTemp(token)};
    }
    assert LiveFiles(after) == original;
  }

  lemma NothingMoved(files: Files, token: nat, original: Triple, image: Content)
    requires Mid(files, token, original, image, {}, false, false)
    ensures NoArtifacts(files) && LiveFiles(files) == original
  {
    assert original - {} == original && Only(original, {}) == map[];
  }

  lemma NothingQuarantined(files: Files, token: nat, original: Triple, image: Content, left: set<Part>)
    requires Cleaning(files, token, original, image, left) && left == {}
    ensures NoArtifacts(files) && LiveFiles(files) == ImageAlone(image)
  {
    assert Only(original, left) == map[];
  }

  class DataDirectory {
    var files: Files

    /** How many steps on these files may still fail or crash. */
    var faultsLeft: nat

    /** The process at work on them has died. */
    ghost var crashed: bool

    /** The path whose content was last checked and synced, and how often that was the live
        main file. */
    ghost var checked: Option<Path>
    ghost var liveChecks: nat

    constructor (initial: Files, faults: nat)
      ensures files == initial && faultsLeft == faults && !crashed
    {
      files, faultsLeft, checked, liveChecks, crashed := initial, faults, None, 0, false;
    }

    /** Success takes no fault, anything else takes one at least. */
    twostate predicate Blames(success: bool)
      reads this
    {
      if success then faultsLeft == old(faultsLeft) else faultsLeft < old(faultsLeft)
    }

    /** One step of a living process. */
    method Attempt() returns (fate: Fate)
      requires !crashed
      modifies `faultsLeft, `crashed
      ensures crashed <==> fate.Crashed?
      ensures Blames(fate.Done?)
    {
      fate, faultsLeft := Chance(faultsLeft);
      crashed := fate.Crashed?;
    }

    /** Whatever the application does to its database while its container runs. */
    method Serve(live: Triple)
      modifies `files
      ensures forall p: Path | !p.Live? :: (p in files <==> p in old(files)) && (p in files ==> files[p] == old(files)[p])
      ensures LiveFiles(files) == live
    {
      files := map p | p in files && !p.Live? :: files[p];
      files := files + (map p | p in {Live(Main), Live(Wal), Live(Shm)} && p.part in live :: live[p.part]);
      forall part: Part ensures Live(part) in {Live(Main), Live(Wal), Live(Shm)} {
        match part case Main => case Wal => case Shm =>
      }
    }

    /** os.replace: atomic and durable; a missing source is a failure. */
    method Replace(src: Path, dst: Path) returns (fate: Fate)
      requires !crashed
      modifies `files, `faultsLeft, `crashed
      ensures crashed <==> fate.Crashed?
      ensures fate.Done? ==> src in old(files) && files == Moved(old(files), src, dst)
      ensures fate.Failed? ==> files == old(files)
      ensures fate.Crashed? ==>
        files == old(files) || (src in old(files) && files == Moved(old(files), src, dst))
      ensures src in old(files) ==> Blames(fate.Done?)
      ensures faultsLeft <= old(faultsLeft)
    {
      fate := Attempt();
      if src !in files {
        if fate.Done? { fate := Failed; }
        return;
      }
      var effect: bool := *;
      if fate.Done? || (fate.Crashed? && effect) {
        files := Moved(files, src, dst);
      }
    }

    /** Path.unlink(missing_ok=True). */
    method Unlink(p: Path) returns (fate: Fate)
      requires !crashed
      modifies `files, `faultsLeft, `crashed
      ensures crashed <==> fate.Crashed?
      ensures fate.Done? ==> files == old(files) - {p}
      ensures fate.Failed? ==> files == old(files)
      ensures fate.Crashed? ==> files == old(files) || files == old(files) - {p}
      ensures Blames(fate.Done?)
    {
      fate := Attempt();
      var effect: bool := *;
      if fate.Done? || (fate.Crashed? && effect) {
        files := files - {p};
      }
    }

    /** verify_sqlite_database and the syncs around it. */
    method Verify(p: Path) returns (fate: Fate)
      requires !crashed
      modifies `faultsLeft, `crashed, `checked, `liveChecks
      ensures crashed <==> fate.Crashed?
      ensures fate.Done? ==> checked == Some(p)
      ensures liveChecks == old(liveChecks) + if fate.Done? && p == Live(Main) then 1 else 0
      ensures Blames(fate.Done?)
    {
      fate := Attempt();
      if fate.Done? {
        checked := Some(p);
        if p == Live(Main) { liveChecks := liveChecks + 1; }
      }
    }

    /** copy_sqlite_database(backup, prepared): builds a temporary beside the
        destination, renames it, and removes the temporary when anything fails. */
    method CopyDatabase(image: Content, token: nat) returns (fate: Fate)
      requires !crashed
      modifies `files, `faultsLeft, `crashed
      ensures crashed <==> fate.Crashed?
      ensures fate.Done? ==>
        files == (old(files) - {CopyTemp(token)})[Restore(token) := image]
      ensures fate.Failed? ==>
        files - {CopyTemp(token)} == old(files) - {CopyTemp(token)}
      ensures fate.Crashed? ==>
        || files - {CopyTemp(token)} == old(files) - {CopyTemp(token)}
        || files == (old(files) - {CopyTemp(token)})[Restore(token) := image]
      ensures fate.Failed? && old(faultsLeft) <= 1 && CopyTemp(token) !in old(files) ==> files == old(files)
      ensures Blames(fate.Done?)
    {
      var temp := CopyTemp(token);
      fate := Unlink(temp);
      if !fate.Done? { return; }
      fate := Attempt();
      var partial: Content := *;
      files := files[temp := if fate.Done? then image else partial];
      if fate.Crashed? { return; }
      if fate.Done? {
        fate := Replace(temp, Restore(token));
        if fate.Done? {
          assert files == (old(files) - {temp})[Restore(token) := image];
          return;
        }
        if fate.Crashed? {
          assert files - {temp} == old(files) - {temp}
              || files == (old(files) - {temp})[Restore(token) := image];
          return;
        }
      }
      var cleaned := Unlink(temp);
      fate := if cleaned.Crashed? then Crashed else Failed;
      assert files - {temp} == old(files) - {temp};
      if cleaned.Done? { assert files == old(files) - {temp}; }
    }

    /** database_restore_recovery_artifacts: is any artifact present? */
    method HasArtifacts() returns (found: bool)
      ensures found <==> !NoArtifacts(files)
    {
      found := exists p <- files :: IsArtifact(p);
    }

    /** Copying, verifying and syncing the image before any live file is touched. */
    method Prepare(image: Content, token: nat, ghost original: Triple) returns (exit: Exit<bool>)
      requires NoArtifacts(files) && LiveFiles(files) == original
      requires !crashed
      modifies this
      ensures crashed <==> exit.Died?
      ensures exit == Returned(true) ==> Mid(files, token, original, image, {}, false, true) && checked == Some(Restore(token))
      ensures liveChecks == old(liveChecks)
      ensures exit == Returned(false) ==> Mid(files, token, original, image, {}, false, false)
      ensures exit != Returned(true) ==> exists prepared :: Mid(files, token, original, image, {}, false, prepared)
      ensures exit != Returned(true) && exit != Died && old(faultsLeft) <= 1 ==> exit == Returned(false)
      ensures Blames(exit == Returned(true))
    {
      ghost var before := files;
      var fate := CopyDatabase(image, token);
      PreparedState(before, files, token, original, image);
      ghost var prepared :| Mid(files, token, original, image, {}, false, prepared);
      if fate.Crashed? { return Died; }
      if fate.Done? {
        fate := Verify(Restore(token));
        assert Mid(files, token, original, image, {}, false, prepared);
        if fate.Crashed? { return Died; }
        if fate.Done? { return Returned(true); }
      }
      DropPrepared(files, token, original, image, {}, false, prepared);
      fate := Unlink(Restore(token));
      exit := if fate.Done? then Returned(false) else if fate.Failed? then Raised else Died;
    }

    /** The loop that renames each existing live file into quarantine. */
    method MoveAside(token: nat, ghost original: Triple, ghost image: Content)
      returns (fate: Fate, moved: seq<Part>, ghost away: set<Part>)
      requires Mid(files, token, original, image, {}, false, true)
      requires !crashed
      modifies `files, `faultsLeft, `crashed
      ensures crashed <==> fate.Crashed?
      ensures Mid(files, token, original, image, away, false, true)
      ensures fate.Done? ==> away == original.Keys
      ensures !fate.Crashed? ==> away == (set part <- moved) && Distinct(moved)
      ensures Blames(fate.Done?)
    {
      moved, away := [], {};
      for i := 0 to 3
        invariant Mid(files, token, original, image, away, false, true)
        invariant faultsLeft == old(faultsLeft) && !crashed
        invariant away == (set part <- moved) && Distinct(moved)
        invariant away == set part | part in PARTS[..i] && part in original
      {
        var part := PARTS[i];
        assert PARTS[..i + 1] == PARTS[..i] + [part];
        StageNames(files, token, original - away, Only(original, away), Some(image), part);
        if Live(part) in files {
          QuarantineOne(files, token, original, image, away, part);
          ghost var before := files;
          fate := Replace(Live(part), Rollback(token, part));
          if fate.Crashed? {
            if files != before { away := away + {part}; }
            return;
          }
          if fate.Failed? { return; }
          assert (set p <- moved + [part]) == (set p <- moved) + {part};
          moved, away := moved + [part], away + {part};
        }
      }
      assert PARTS[..3] == PARTS;
      AllParts();
      fate := Done;
    }

    /** First half of the exception path: remove what was published where nothing was before. */
    method DropWhereNothingWas(token: nat, moved: seq<Part>, ghost original: Triple, ghost image: Content)
      returns (fate: Fate, ghost published: bool)
      requires (set part <- moved) == original.Keys
      requires Mid(files, token, original, image, original.Keys, true, false)
      requires !crashed
      modifies `files, `faultsLeft, `crashed
      ensures crashed <==> fate.Crashed?
      ensures Mid(files, token, original, image, original.Keys, published, false)
      ensures fate.Done? && published ==> Main in original
      ensures Blames(fate.Done?)
    {
      published := true;
      for i := 0 to 3
        invariant Mid(files, token, original, image, original.Keys, published, false)
        invariant faultsLeft == old(faultsLeft) && !crashed
        invariant published && i > 0 ==> Main in original
      {
        var part := PARTS[i];
        if part !in moved {
          DropPublished(files, token, original, image, published, part);
          ghost var before := files;
          fate := Unlink(Live(part));
          if files != before || fate.Done? { published := published && part != Main; }
          if !fate.Done? { return; }
        }
      }
      fate := Done;
    }

    /** Second half: rename the quarantined files back in reverse order. */
    method BringBack(
      token: nat, moved: seq<Part>, ghost original: Triple, ghost image: Content,
      ghost wasPublished: bool, ghost prepared: bool)
      returns (fate: Fate, ghost away: set<Part>, ghost published: bool)
      requires Distinct(moved)
      requires Mid(files, token, original, image, (set part <- moved), wasPublished, prepared)
      requires wasPublished ==> Main in moved
      requires !crashed
      modifies `files, `faultsLeft, `crashed
      ensures crashed <==> fate.Crashed?
      ensures Mid(files, token, original, image, away, published, prepared)
      ensures fate.Done? ==> away == {} && !published
      ensures Blames(fate.Done?)
    {
      away, published := (set part <- moved), wasPublished;
      for j := |moved| downto 0
        invariant Mid(files, token, original, image, away, published, prepared)
        invariant faultsLeft == old(faultsLeft) && !crashed
        invariant away == (set part <- moved[..j])
        invariant published ==> Main in away
      {
        var part := moved[j];
        assert away - {part} == (set p <- moved[..j]) by {
          assert moved[..j + 1] == moved[..j] + [part];
          assert part !in moved[..j];
        }
        BringBackOne(files, token, original, image, away, published, prepared, part);
        ghost var before := files;
        fate := Replace(Rollback(token, part), Live(part));
        if files != before || fate.Done? { away, published := away - {part}, published && part != Main; }
        if !fate.Done? { return; }
      }
      fate := Attempt();              // fsync of the directory
    }

    /** The exception path of the install. */
    method Undo(token: nat, moved: seq<Part>, installed: bool, ghost original: Triple, ghost image: Content)
      returns (fate: Fate, ghost away: set<Part>, ghost published: bool)
      requires Distinct(moved)
      requires Mid(files, token, original, image, (set part <- moved), installed, !installed)
      requires installed ==> (set part <- moved) == original.Keys
      requires !crashed
      modifies `files, `faultsLeft, `crashed
      ensures crashed <==> fate.Crashed?
      ensures Mid(files, token, original, image, away, published, !installed)
      ensures fate.Done? ==> away == {} && !published
      ensures Blames(fate.Done?)
    {
      away, published := (set part <- moved), installed;
      if installed {
        fate, published := DropWhereNothingWas(token, moved, original, image);
        if !fate.Done? { return; }
      }
      fate, away, published := BringBack(token, moved, original, image, published, !installed);
    }

    /** The two attempts to publish, verify and, on failure, put everything back. */
    method Publishing(token: nat, ghost original: Triple, ghost image: Content)
      returns (exit: Exit<bool>)
      requires Mid(files, token, original, image, {}, false, true)
      requires !crashed
      modifies this
      ensures crashed <==> exit.Died?
      ensures exit == Returned(true) ==> Cleaning(files, token, original, image, original.Keys) && checked == Some(Live(Main))
      ensures liveChecks == old(liveChecks) + if exit == Returned(true) then 1 else 0
      ensures exit != Returned(true) ==>
        exists away, installed, prepared :: Mid(files, token, original, image, away, installed, prepared)
      ensures exit != Returned(true) && exit != Died && old(faultsLeft) <= 1 ==>
        exit == Returned(false) && Mid(files, token, original, image, {}, false, false)
      ensures Blames(exit == Returned(true))
    {
      ghost var away;
      var fate, moved;
      fate, moved, away := MoveAside(token, original, image);
      var installed := false;
      if fate.Done? {
        Publish(files, token, original, image);
        ghost var before := files;
        fate := Replace(Restore(token), Live(Main));
        if fate.Done? {
          installed := true;
          fate := Verify(Live(Main));
          assert Mid(files, token, original, image, original.Keys, true, false);
          if fate.Done? {
            assert LiveNow(original, image, original.Keys, true) == ImageAlone(image);
            return Returned(true);
          }
        }
      }
      if fate.Crashed? { return Died; }
      ghost var published;
      fate, away, published := Undo(token, moved, installed, original, image);
      if fate.Crashed? { return Died; }
      DropPrepared(files, token, original, image, away, published, !installed);
      fate := Unlink(Restore(token));
      exit := if fate.Done? then Returned(false) else if fate.Failed? then Raised else Died;
    }

    /** One turn of the loop that empties the quarantine. */
    method EmptySlot(token: nat, part: Part, ghost original: Triple, ghost image: Content, ghost left: set<Part>)
      returns (fate: Fate, ghost after: set<Part>)
      requires Cleaning(files, token, original, image, left)
      requires !crashed
      modifies `files, `faultsLeft, `crashed
      ensures crashed <==> fate.Crashed?
      ensures Cleaning(files, token, original, image, after) && after <= left
      ensures fate.Done? ==> part !in after
      ensures Blames(fate.Done?)
    {
      DropQuarantine(files, token, original, image, left, part);
      ghost var before := files;
      fate := Unlink(Rollback(token, part));
      after := if files == before && !fate.Done? then left else left - {part};
    }

    /** Emptying the quarantine once the new database has been verified. */
    method EmptyQuarantine(token: nat, ghost original: Triple, ghost image: Content) returns (exit: Exit<bool>)
      requires Cleaning(files, token, original, image, original.Keys)
      requires !crashed
      modifies `files, `faultsLeft, `crashed
      ensures crashed <==> exit.Died?
      ensures exists left :: Cleaning(files, token, original, image, left)
      ensures exit == Returned(true) ==> NoArtifacts(files) && LiveFiles(files) == ImageAlone(image)
      ensures Blames(exit == Returned(true))
    {
      ghost var left;
      var fate;
      fate, left := EmptySlots(token, original, image);
      if !fate.Done? { return if fate.Failed? then Returned(false) else Died; }
      NothingQuarantined(files, token, original, image, left);
      ghost var before := files;
      fate := Attempt();          // fsync of the directory
      assert files == before && Cleaning(files, token, original, image, left);
      exit := if fate.Done? then Returned(true) else if fate.Failed? then Returned(false) else Died;
    }

    /** The loop that empties the quarantine. */
    method EmptySlots(token: nat, ghost original: Triple, ghost image: Content) returns (fate: Fate, ghost left: set<Part>)
      requires Cleaning(files, token, original, image, original.Keys)
      requires !crashed
      modifies `files, `faultsLeft, `crashed
      ensures crashed <==> fate.Crashed?
      ensures Cleaning(files, token, original, image, left)
      ensures fate.Done? ==> left == {}
      ensures Blames(fate.Done?)
    {
      left := original.Keys;
      for i := 0 to 3
        invariant Cleaning(files, token, original, image, left)
        invariant faultsLeft == old(faultsLeft) && !crashed
        invariant forall part <- PARTS[..i] :: part !in left
      {
        assert PARTS[..i + 1] == PARTS[..i] + [PARTS[i]];
        fate, left := EmptySlot(token, PARTS[i], original, image, left);
        if !fate.Done? { return; }
      }
      assert PARTS[..3] == PARTS;
      AllParts();
      fate := Done;
    }

    /** install_prepared_database.  `verified` says whether the run got past the
        verification of the published image. */
    method Install(image: Content, token: nat) returns (exit: Exit<bool>, ghost verified: bool)
      requires !crashed
      modifies this
      ensures crashed <==> exit.Died?
      ensures !old(NoArtifacts(files)) ==> exit == Returned(false) && files == old(files)
      ensures old(NoArtifacts(files)) ==> Settled(files, old(LiveFiles(files)), image)
      ensures old(NoArtifacts(files)) && !verified ==> OriginalsKept(files, old(LiveFiles(files)), token)
      ensures verified ==> LiveFiles(files) == ImageAlone(image) && checked == Some(Live(Main))
      ensures liveChecks == old(liveChecks) + if verified then 1 else 0
      ensures exit == Returned(true) ==> verified && NoArtifacts(files)
      ensures old(NoArtifacts(files)) && !verified && exit != Died && old(faultsLeft) <= 1 ==>
        exit == Returned(false) && NoArtifacts(files) && LiveFiles(files) == old(LiveFiles(files))
      ensures if old(NoArtifacts(files)) then Blames(exit == Returned(true)) else Blames(true)
    {
      verified := false;
      var found := HasArtifacts();
      if found { return Returned(false), false; }
      ghost var original := LiveFiles(files);
      exit := Prepare(image, token, original);
      if exit == Returned(true) {
        exit := Publishing(token, original, image);
        if exit == Returned(true) {
          verified := true;
          exit := EmptyQuarantine(token, original, image);
          ghost var left :| Cleaning(files, token, original, image, left);
          CleaningIsSettled(files, token, original, image, left);
          return;
        }
      }
      ghost var away, installed, prepared :| Mid(files, token, original, image, away, installed, prepared);
      MidIsSafe(files, token, original, image, away, installed, prepared);
      if exit == Returned(false) && Mid(files, token, original, image, {}, false, false) {
        NothingMoved(files, token, original, image);
      }
    }

    /** remove_production_database_files: the rollback to "there was no database". */
    method RemoveLive() returns (exit: Exit<bool>)
      requires !crashed
      modifies `files, `faultsLeft, `crashed
      ensures crashed <==> exit.Died?
      ensures LiveFiles(files).Keys <= old(LiveFiles(files)).Keys
      ensures forall p | IsArtifact(p) :: p in files <==> p in old(files)
      ensures exit == Returned(true) ==> LiveFiles(files) == map[]
      ensures Blames(exit == Returned(true))
    {
      var fate;
      for i := 0 to 3
        invariant LiveFiles(files).Keys <= old(LiveFiles(files)).Keys
        invariant forall p | IsArtifact(p) :: p in files <==> p in old(files)
        invariant faultsLeft == old(faultsLeft) && !crashed
        invariant forall part <- PARTS[..i] :: Live(part) !in files
      {
        assert PARTS[..i + 1] == PARTS[..i] + [PARTS[i]];
        fate := Unlink(Live(PARTS[i]));
        if !fate.Done? {
          return if fate.Failed? then Returned(false) else Died;
        }
      }
      assert PARTS[..3] == PARTS;
      AllParts();
      fate := Attempt();              // fsync of the directory
      exit := if fate.Done? then Returned(true) else if fate.Failed? then Returned(false) else Died;
    }

    /** restore_production_database on a layout that passed its checks.  The backup
        file itself may be missing or unsafe. */
    method RestoreDatabase(backup: Option<Content>, backupUsable: bool, token: nat)
      returns (exit: Exit<bool>, ghost verified: bool)
      requires !crashed
      modifies this
      ensures crashed <==> exit.Died?
      ensures !old(NoArtifacts(files)) ==> exit == Returned(false) && files == old(files)
      ensures exit == Returned(true) ==>
        NoArtifacts(files) && LiveFiles(files) == (if backup.Some? then ImageAlone(backup.value) else map[])
      ensures backup.Some? && old(NoArtifacts(files)) ==> Settled(files, old(LiveFiles(files)), backup.value)
      ensures backup.Some? && old(NoArtifacts(files)) && !verified ==> OriginalsKept(files, old(LiveFiles(files)), token)
      ensures verified ==> backup.Some? && LiveFiles(files) == ImageAlone(backup.value)
      ensures exit == Returned(true) && backup.Some? ==> verified
      ensures liveChecks == old(liveChecks) + if verified then 1 else 0
      ensures backup.None? && old(NoArtifacts(files)) ==>
        NoArtifacts(files) && LiveFiles(files).Keys <= old(LiveFiles(files)).Keys
      ensures backup.Some? && old(NoArtifacts(files)) && !verified && exit != Died && old(faultsLeft) <= 1 ==>
        NoArtifacts(files) && LiveFiles(files) == old(LiveFiles(files))
      ensures
        if old(NoArtifacts(files)) && (backup.Some? ==> backupUsable) then Blames(exit == Returned(true)) else Blames(true)
    {
      verified := false;
      var found := HasArtifacts();
      if found { return Returned(false), false; }
      if backup.None? {
        exit := RemoveLive();
        return;
      }
      if !backupUsable { return Returned(false), false; }
      exit, verified := Install(backup.value, token);
    }

    /** Any number of attempts, each cut short, failed or complete: the database is
        never half replaced unless an artifact says so, the first attempt that reports
        success leaves the image alone, and until some attempt has verified the image every
        byte of the first original is at its own path or in one quarantine. */
    method RestoreUntilDone(image: Content, tokens: seq<nat>)
      returns (done: bool, ghost verified: bool, ghost token: nat)
      modifies this
      ensures old(NoArtifacts(files)) ==> Settled(files, old(LiveFiles(files)), image)
      ensures old(NoArtifacts(files)) && !verified ==> OriginalsKept(files, old(LiveFiles(files)), token)
      ensures verified <==> liveChecks > old(liveChecks)
      ensures !old(NoArtifacts(files)) ==> !done && files == old(files)
      ensures done ==> verified && NoArtifacts(files) && LiveFiles(files) == ImageAlone(image)
      ensures old(NoArtifacts(files)) && tokens != [] && faultsLeft == old(faultsLeft) ==> done
    {
      done, verified, token := false, false, 0;
      for i := 0 to |tokens|
        invariant old(NoArtifacts(files)) ==> Settled(files, old(LiveFiles(files)), image)
        invariant old(NoArtifacts(files)) && !verified ==> OriginalsKept(files, old(LiveFiles(files)), token)
        invariant !old(NoArtifacts(files)) ==> files == old(files)
        invariant verified <==> liveChecks > old(liveChecks)
        invariant liveChecks >= old(liveChecks)
        invariant old(NoArtifacts(files)) ==> if i == 0 then files == old(files) && faultsLeft == old(faultsLeft) else faultsLeft < old(faultsLeft)
      {
        ghost var was := files;
        ghost var now;
        crashed := false;              // a new process
        var exit;
        exit, now := RestoreDatabase(Some(image), true, tokens[i]);
        if NoArtifacts(was) {
          if !verified && !now { KeptAgain(was, files, old(LiveFiles(files)), token, tokens[i]); }
          token := tokens[i];
        }
        verified := verified || now;
        if exit == Returned(true) { return true, verified, token; }
      }
    }
  }

  /** Originals that were kept in a directory without artifacts are live there, so what keeps
      its live files keeps them. */
  lemma KeptAgain(was: Files, files: Files, original: Triple, earlier: nat, token: nat)
    requires NoArtifacts(was) && OriginalsKept(was, original, earlier) && OriginalsKept(files, LiveFiles(was), token)
    ensures OriginalsKept(files, original, token)
  {
    forall part | part in original
      ensures
        || (Live(part) in files && files[Live(part)] == original[part])
        || (Rollback(token, part) in files && files[Rollback(token, part)] == original[part])
    {
      assert !IsArtifact(Live(part)) && IsArtifact(Rollback(earlier, part));
      assert LiveFiles(was)[part] == original[part];
    }
  }
}

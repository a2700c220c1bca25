/** What sealing and repairing guarantee, and where the manifest-less bound stops being sound. */
module CacheProofs {
  import opened Common
  import opened CacheUnits

  // ---------------------------------------------------------------- manifest text

  lemma {:induction false} FirstBreakOf(n: string, c: char, rest: string)
    requires OneLine(n) && IsBreak(c)
    ensures FirstBreak(n + [c] + rest) == |n|
  {
    if n != "" {
      assert n[0] in n && forall x <- n[1..] :: x in n;
      FirstBreakOf(n[1..], c, rest);
      assert (n + [c] + rest)[1..] == n[1..] + [c] + rest;
    }
  }

  /** A manifest of one-line names reads back as those names. */
  lemma {:induction false} JoinSplits(names: seq<Path>)
    requires forall n <- names :: OneLine(n)
    ensures SplitLines(Join(names)) == names
  {
    if names != [] {
      var n, rest := names[0], Join(names[1..]);
      assert n in names && Join(names) == n + ['\n'] + rest;
      FirstBreakOf(n, '\n', rest);
      assert (n + ['\n'] + rest)[..|n|] == n && (n + ['\n'] + rest)[|n| + 1..] == rest;
      JoinSplits(names[1..]);
    }
  }

  lemma {:induction false} LinesHaveNoBreak(s: string)
    ensures forall l <- SplitLines(s) :: OneLine(l)
    decreases |s|
  {
    if s != "" {
      var i := FirstBreak(s);
      if i == |s| {
        assert s[..i] == s;
      } else {
        LinesHaveNoBreak(s[i + 1..]);
        if i + 2 <= |s| {
          LinesHaveNoBreak(s[i + 2..]);
        }
      }
    }
  }

  // ---------------------------------------------------------------- seal, prune, repair: one unit

  /** Deleting a link's target leaves the link dangling. */
  ghost predicate Weakened(e: Entry, e': Entry) {
    e' == e || (e.Link? && e' == Link(e.mtime, Dangling))
  }

  /** Any files deleted, directories kept. */
  ghost predicate Pruned(u: Unit, u': Unit) {
    u'.dirs == u.dirs && forall p <- u'.files :: p in u.files && Weakened(u.files[p], u'.files[p])
  }

  function Contents(u: Unit): map<Path, Entry> {
    map p <- u.files | !IsManifest(p) :: u.files[p]
  }

  /** A unit as sealing leaves it; `stray` knows no path that names one of its files. */
  ghost predicate Manifested(u: Unit, names: seq<Path>, stray: Path -> bool) {
    && HasManifest(u) && u.files[MANIFEST].text == Join(names) && Enumerates(names, Listed(u))
    && u.files.Keys !! u.dirs && (forall p <- u.files :: p != "" && !stray(p))
  }

  ghost predicate AllOneLine(names: seq<Path>) {
    forall n <- names :: OneLine(n)
  }

  ghost predicate Whole(u: Unit, u': Unit) {
    forall p <- Listed(u) :: p in u'.files && LinkLives(u'.files[p])
  }

  /** After any pruning, the manifest passes exactly when every listed file is there and resolves. */
  lemma KeptIffWhole(u: Unit, u': Unit, names: seq<Path>, stray: Path -> bool)
    requires Manifested(u, names, stray) && AllOneLine(names) && Pruned(u, u') && HasManifest(u')
    ensures !BrokenUnit(u', stray) <==> Whole(u, u')
  {
    JoinSplits(names);
    assert u'.files[MANIFEST] == u.files[MANIFEST];
    forall n <- names ensures Exists(u', n, stray) <==> n in u'.files && LinkLives(u'.files[n]) {
      assert n in Listed(u);
    }
    if !BrokenUnit(u', stray) {
      forall p <- Listed(u) ensures p in u'.files && LinkLives(u'.files[p]) {
        assert p in names;
      }
    }
  }

  lemma WholeMeansSame(u: Unit, u': Unit)
    requires Pruned(u, u') && Whole(u, u')
    ensures Contents(u') == Contents(u)
  {
  }

  ghost predicate SealProtects(u: Unit, stray: Path -> bool) {
    forall u' :: Pruned(u, u') && HasManifest(u') && !BrokenUnit(u', stray) ==> Contents(u') == Contents(u)
  }

  /**
   A manifest protects its unit against every pruning exactly when no listed name
   contains a line break, or the unit does not pass even before pruning.
   */
  lemma SealProtectsIff(u: Unit, names: seq<Path>, stray: Path -> bool)
    requires Manifested(u, names, stray)
    ensures SealProtects(u, stray) <==> AllOneLine(names) || BrokenUnit(u, stray)
  {
    if AllOneLine(names) {
      forall u' | Pruned(u, u') && HasManifest(u') && !BrokenUnit(u', stray) ensures Contents(u') == Contents(u) {
        KeptIffWhole(u, u', names, stray);
        WholeMeansSame(u, u');
      }
    } else if BrokenUnit(u, stray) {
      forall u' | Pruned(u, u') && HasManifest(u') ensures BrokenUnit(u', stray) {
        BrokenStaysBroken(u, u', stray);
      }
    } else {
      var n :| n in names && !OneLine(n);
      var u' := LostUnnoticed(u, n, stray, names);
    }
  }

  lemma BrokenStaysBroken(u: Unit, u': Unit, stray: Path -> bool)
    requires HasManifest(u) && HasManifest(u') && Pruned(u, u') && BrokenUnit(u, stray)
    requires u.files.Keys !! u.dirs && forall p <- u.files :: !stray(p)
    ensures BrokenUnit(u', stray)
  {
  }

  /** A file whose name spans lines can go without the manifest noticing. */
  lemma LostUnnoticed(u: Unit, n: Path, stray: Path -> bool, names: seq<Path>) returns (u': Unit)
    requires Manifested(u, names, stray) && n in names && !OneLine(n) && !BrokenUnit(u, stray)
    ensures Pruned(u, u') && HasManifest(u') && !BrokenUnit(u', stray) && Contents(u') != Contents(u)
  {
    u' := Unit(u.files - {n}, u.dirs);
    assert n in Listed(u) && n != MANIFEST;
    LinesHaveNoBreak(u.files[MANIFEST].text);
    forall rel <- SplitLines(u'.files[MANIFEST].text) | rel != "" ensures Exists(u', rel, stray) {
      assert rel != n && Exists(u, rel, stray);
    }
    assert n in Contents(u) && n !in Contents(u');
  }

  // ---------------------------------------------------------------- seal, prune, repair: the tree

  ghost predicate PrunedFiles(files: map<Place, Entry>, files': map<Place, Entry>) {
    forall pl <- files' :: pl in files && Weakened(files[pl], files'[pl])
  }

  lemma UnitAtKeys(files: map<Place, Entry>, dirs: set<Path>, id: UnitId)
    ensures forall p :: p in UnitAt(files, dirs, id).files <==> InUnit(id, p) in files
    ensures forall p <- UnitAt(files, dirs, id).files :: UnitAt(files, dirs, id).files[p] == files[InUnit(id, p)]
  {
  }

  /** `out.manifest` lies beside `out/`, so sealing freshens outputs and lists what it listed. */
  lemma SealManifests(start: map<Place, Entry>, files: map<Place, Entry>, listing: map<UnitId, seq<Path>>, now: real,
                      units: map<UnitId, set<Path>>, id: UnitId, stray: Path -> bool)
    requires Sealed(files, start, listing, now) && ListsAll(start, units, listing) && id in listing
    requires forall pl <- start :: pl.InUnit? && pl.id == id ==> pl.path !in units[id] && pl.path != "" && !stray(pl.path)
    requires MANIFEST !in units[id] && !stray(MANIFEST)
    ensures Manifested(UnitAt(files, units[id], id), listing[id], stray)
  {
    var u0, u := UnitAt(start, units[id], id), UnitAt(files, units[id], id);
    UnitAtKeys(start, units[id], id);
    UnitAtKeys(files, units[id], id);
    assert SealedAt(files, start, listing, now, InUnit(id, MANIFEST));
    forall p ensures p in Listed(u) <==> p in Listed(u0) {
      assert SealedAt(files, start, listing, now, InUnit(id, p));
    }
    assert Listed(u) == Listed(u0);
    forall p <- u.files ensures p !in u.dirs && p != "" && !stray(p) {
      assert SealedAt(files, start, listing, now, InUnit(id, p));
      if p != MANIFEST {
        assert InUnit(id, p) in start;
      }
    }
  }

  /**
   Seal, delete any files at all, then repair strictly: a unit that remains holds exactly
   its sealed files, manifests aside, and a unit that does not remain has left no file
   and no fingerprint behind.
   */
  lemma SealPruneRepair(start: map<Place, Entry>, files: map<Place, Entry>, listing: map<UnitId, seq<Path>>, now: real,
                        units: map<UnitId, set<Path>>, pruned: map<Place, Entry>, cutoff: real, stray: Path -> bool,
                        verdicts: map<UnitId, Verdict>, prints: set<UnitId>,
                        left: map<Place, Entry>, units': map<UnitId, set<Path>>, prints': set<UnitId>, id: UnitId)
    requires Sealed(files, start, listing, now) && ListsAll(start, units, listing) && listing.Keys == units.Keys
    requires PrunedFiles(files, pruned)
    requires verdicts.Keys == units.Keys && JudgedAll(pruned, units, cutoff, true, stray, verdicts)
    requires RepairLeaves(pruned, units, prints, verdicts, left, units', prints')
    requires id in units && AllOneLine(listing[id])
    requires forall pl <- start :: pl.InUnit? && pl.id == id ==> pl.path !in units[id] && pl.path != "" && !stray(pl.path)
    requires MANIFEST !in units[id] && !stray(MANIFEST)
    ensures id in units' ==> Contents(UnitAt(left, units'[id], id)) == Contents(UnitAt(files, units[id], id)) && (id in prints ==> id in prints')
    ensures id !in units' ==> id !in prints' && forall pl <- left :: pl.Elsewhere? || pl.id != id
  {
    if id in units' {
      assert Stays(units, verdicts, id);
      SealManifests(start, files, listing, now, units, id, stray);
      PrunedUnit(files, pruned, units[id], id);
      StrictlyKeptIsWhole(UnitAt(files, units[id], id), UnitAt(pruned, units[id], id), listing[id], cutoff, stray, verdicts[id]);
      LeftAlone(pruned, units, prints, verdicts, left, units', prints', id);
    }
  }

  lemma PrunedUnit(files: map<Place, Entry>, pruned: map<Place, Entry>, dirs: set<Path>, id: UnitId)
    requires PrunedFiles(files, pruned)
    ensures Pruned(UnitAt(files, dirs, id), UnitAt(pruned, dirs, id))
  {
    UnitAtKeys(files, dirs, id);
    UnitAtKeys(pruned, dirs, id);
  }

  lemma StrictlyKeptIsWhole(u: Unit, u': Unit, names: seq<Path>, cutoff: real, stray: Path -> bool, v: Verdict)
    requires Manifested(u, names, stray) && AllOneLine(names) && Pruned(u, u')
    requires Judged(u', cutoff, true, stray, v) && (v == KeepSealed || v == KeepFar)
    ensures Contents(u') == Contents(u)
  {
    KeptIffWhole(u, u', names, stray);
    WholeMeansSame(u, u');
  }

  /** A unit that repair keeps is the unit it was. */
  lemma LeftAlone(files: map<Place, Entry>, units: map<UnitId, set<Path>>, prints: set<UnitId>, verdicts: map<UnitId, Verdict>,
                  left: map<Place, Entry>, units': map<UnitId, set<Path>>, prints': set<UnitId>, id: UnitId)
    requires RepairLeaves(files, units, prints, verdicts, left, units', prints') && id in units'
    ensures id in units && UnitAt(left, units'[id], id) == UnitAt(files, units[id], id)
  {
    UnitAtKeys(left, units'[id], id);
    UnitAtKeys(files, units[id], id);
    assert UnitAt(left, units'[id], id).files == UnitAt(files, units[id], id).files;
  }

  // ---------------------------------------------------------------- the manifest-less bound

  /** Every file lost so far was no newer than every file still there. */
  ghost predicate Below(lost: map<Place, Entry>, files: map<Place, Entry>) {
    forall d <- lost, k <- files :: lost[d].mtime <= files[k].mtime
  }

  /** A finished build-script run: `out/`, an `output`, and nothing dated more than two hours before it. */
  ghost predicate RunDated(u: Unit) {
    && "out" in u.dirs && "out" !in u.files
    && "output" in u.files && u.files["output"].Regular?
    && forall p <- u.files :: u.files[p].mtime >= u.files["output"].mtime - 7200.0
  }

  /** The bound: a dated run unit that is kept lost nothing. */
  lemma KeptRunLostNothing(files: map<Place, Entry>, lost: map<Place, Entry>, cutoff: Option<real>, dirs: set<Path>, id: UnitId,
                           stray: Path -> bool)
    requires Below(lost, files) && files.Keys !! lost.Keys && IsOldest(files, cutoff)
    requires RunDated(UnitAt(files + lost, dirs, id))
    requires !HasManifest(UnitAt(files, dirs, id)) && Judged(UnitAt(files, dirs, id), if cutoff.Some? then cutoff.value else 0.0, false, stray, KeepFar)
    ensures UnitAt(files, dirs, id) == UnitAt(files + lost, dirs, id)
  {
  }

  lemma UnitAtUnion(files: map<Place, Entry>, lost: map<Place, Entry>, dirs: set<Path>, id: UnitId)
    requires files.Keys !! lost.Keys
    ensures var u, full := UnitAt(files, dirs, id), UnitAt(files + lost, dirs, id);
            && (forall p <- u.files :: p in full.files && full.files[p] == u.files[p])
            && (forall p <- full.files :: p in u.files || (InUnit(id, p) in lost && lost[InUnit(id, p)] == full.files[p]))
  {
  }

  lemma LostIsOld(files: map<Place, Entry>, lost: map<Place, Entry>, cutoff: real)
    requires Below(lost, files) && IsOldest(files, Some(cutoff))
    ensures forall d <- lost :: lost[d].mtime <= cutoff
  {
  }

  /** The same for a compile unit, dated by its newest file. */
  ghost predicate CompileDated(u: Unit, newest: real) {
    && "output" !in u.files
    && IsLatest(u, newest) && forall p <- u.files :: u.files[p].mtime >= newest - 7200.0
  }

  lemma KeptCompileLostNothing(files: map<Place, Entry>, lost: map<Place, Entry>, cutoff: real, dirs: set<Path>, id: UnitId,
                               newest: real, stray: Path -> bool)
    requires Below(lost, files) && files.Keys !! lost.Keys && IsOldest(files, Some(cutoff))
    requires CompileDated(UnitAt(files + lost, dirs, id), newest)
    requires !HasManifest(UnitAt(files, dirs, id)) && Judged(UnitAt(files, dirs, id), cutoff, false, stray, KeepFar)
    ensures UnitAt(files, dirs, id) == UnitAt(files + lost, dirs, id)
  {
    var u, full := UnitAt(files, dirs, id), UnitAt(files + lost, dirs, id);
    UnitAtKeys(files, dirs, id);
    UnitAtKeys(files + lost, dirs, id);
    var m := JudgedByNewest(u, cutoff, stray);
    UnitAtUnion(files, lost, dirs, id);
    assert m <= newest by {
      var top :| top in u.files && u.files[top].mtime == m;
      assert full.files[top].mtime == m;
    }
    LostIsOld(files, lost, cutoff);
    assert full.files.Keys == u.files.Keys;
  }

  lemma JudgedByNewest(u: Unit, cutoff: real, stray: Path -> bool) returns (m: real)
    requires "output" !in u.files && !HasManifest(u) && Judged(u, cutoff, false, stray, KeepFar)
    ensures IsLatest(u, m) && m > cutoff + 7200.0
  {
    var ref :| JudgedBy(u, ref, stray) && ref.Some? && ref.value > cutoff + 7200.0;
    m := ref.value;
  }

  /** The bound is tight: one lost file newer than the cutoff, and some dated run unit is kept without it. */
  lemma BoundIsTight(cutoff: real, m: real, stray: Path -> bool) returns (full: Unit, u: Unit)
    requires m > cutoff
    ensures RunDated(full) && "out/a.rs" in full.files && full.files["out/a.rs"].mtime == m
    ensures u == Unit(full.files - {"out/a.rs"}, full.dirs) && u != full
    ensures !HasManifest(u) && Judged(u, cutoff, false, stray, KeepFar)
  {
    full := Unit(map["output" := Regular(m + 7200.0, ""), "out/a.rs" := Regular(m, "")], {"out"});
    u := Unit(full.files - {"out/a.rs"}, full.dirs);
    assert full.files["output"] == Regular(m + 7200.0, "");
    assert JudgedBy(u, Some(m + 7200.0), stray);
  }

  /** `u` is a dated run unit `full` with some files gone, the one at `p` of time `m` among them, and the bound keeps it. */
  ghost predicate KeptWithout(full: Unit, u: Unit, p: Path, m: real, cutoff: real, stray: Path -> bool) {
    && RunDated(full) && u.dirs == full.dirs && (forall q <- u.files :: q in full.files && u.files[q] == full.files[q])
    && p in full.files && full.files[p].mtime == m && p !in u.files
    && !HasManifest(u) && Judged(u, cutoff, false, stray, KeepFar)
  }

  /** A file of time `m` can be missing from some dated run unit that the bound keeps exactly when it is newer than the cutoff. */
  lemma MayMissIff(cutoff: real, m: real, stray: Path -> bool)
    ensures (exists full, u, p :: KeptWithout(full, u, p, m, cutoff, stray)) <==> m > cutoff
  {
    if full, u, p :| KeptWithout(full, u, p, m, cutoff, stray) {
      OutputIsFar(u, cutoff, stray);
    }
    if m > cutoff {
      var full, u := BoundIsTight(cutoff, m, stray);
      assert KeptWithout(full, u, "out/a.rs", m, cutoff, stray);
    }
  }

  lemma OutputIsFar(u: Unit, cutoff: real, stray: Path -> bool)
    requires "out" in u.dirs && "out" !in u.files && !HasManifest(u) && Judged(u, cutoff, false, stray, KeepFar)
    ensures "output" in u.files && IsFile(u.files["output"]) && StatMtime(u.files["output"]) > cutoff + 7200.0
  {
  }

  // ---------------------------------------------------------------- prune cycles

  /** What a save has behind it: the files there now, and the last state of every file lost. */
  datatype Saved = Saved(files: map<Place, Entry>, lost: map<Place, Entry>)

  /** One cycle: files enter or are rewritten, then the prune keeps some. */
  datatype Cycle = Cycle(entered: map<Place, Entry>, kept: set<Place>)

  function Grown(s: Saved, c: Cycle): map<Place, Entry> {
    s.files + c.entered
  }

  function NextSaved(s: Saved, c: Cycle): Saved {
    Saved(map pl <- Grown(s, c) | pl in c.kept :: Grown(s, c)[pl],
          map pl | pl in s.lost.Keys + Grown(s, c).Keys && !(pl in Grown(s, c) && pl in c.kept) ::
            if pl in Grown(s, c) then Grown(s, c)[pl] else s.lost[pl])
  }

  /** The prune is least-recently-used: what goes is no newer than what stays. */
  ghost predicate IsLru(s: Saved, c: Cycle) {
    forall d <- Grown(s, c), k <- Grown(s, c) :: d !in c.kept && k in c.kept ==> Grown(s, c)[d].mtime <= Grown(s, c)[k].mtime
  }

  /** Nothing enters to stay that is older than a file still missing. */
  ghost predicate Calm(s: Saved, c: Cycle) {
    forall e <- c.entered, d <- s.lost :: e in c.kept && d !in c.entered ==> s.lost[d].mtime <= c.entered[e].mtime
  }

  ghost predicate Sound(s: Saved) {
    Below(s.lost, s.files) && s.files.Keys !! s.lost.Keys
  }

  /** One more cycle keeps the bound sound exactly when it is calm. */
  lemma SoundIffCalm(s: Saved, c: Cycle)
    requires Sound(s) && IsLru(s, c)
    ensures Sound(NextSaved(s, c)) <==> Calm(s, c)
  {
    var s' := NextSaved(s, c);
    if Calm(s, c) {
      forall d <- s'.lost, k <- s'.files ensures s'.lost[d].mtime <= s'.files[k].mtime {
        if d in Grown(s, c) {
          assert d !in c.kept;
        } else {
          assert d in s.lost;
        }
      }
    }
    if Sound(s') {
      forall e <- c.entered, d <- s.lost | e in c.kept && d !in c.entered ensures s.lost[d].mtime <= c.entered[e].mtime {
        assert d in s'.lost && e in s'.files;
      }
    }
  }

  ghost function SavedAfter(s: Saved, cycles: seq<Cycle>): Saved
    decreases |cycles|
  {
    if cycles == [] then s else SavedAfter(NextSaved(s, cycles[0]), cycles[1..])
  }

  ghost predicate AllLru(s: Saved, cycles: seq<Cycle>)
    decreases |cycles|
  {
    cycles == [] || (IsLru(s, cycles[0]) && AllLru(NextSaved(s, cycles[0]), cycles[1..]))
  }

  ghost predicate AllCalm(s: Saved, cycles: seq<Cycle>)
    decreases |cycles|
  {
    cycles == [] || (Calm(s, cycles[0]) && AllCalm(NextSaved(s, cycles[0]), cycles[1..]))
  }

  /** The bound survives any number of calm cycles. */
  lemma {:induction false} CalmCyclesSound(s: Saved, cycles: seq<Cycle>)
    requires Sound(s) && AllLru(s, cycles) && AllCalm(s, cycles)
    ensures Sound(SavedAfter(s, cycles))
    decreases |cycles|
  {
    if cycles != [] {
      SoundIffCalm(s, cycles[0]);
      CalmCyclesSound(NextSaved(s, cycles[0]), cycles[1..]);
    }
  }

  /** In particular when no file older than the last cutoff enters. */
  lemma NothingOlderIsCalm(s: Saved, c: Cycle, cutoff: real)
    requires Sound(s) && IsOldest(s.files, Some(cutoff))
    requires forall e <- c.entered :: cutoff <= c.entered[e].mtime
    ensures Calm(s, c)
  {
  }

  /** Nothing is lost yet, or nothing enters that is older than the cutoff the tree shows. */
  ghost predicate Quiet(s: Saved, c: Cycle) {
    s.lost.Keys == {} || exists cutoff :: IsOldest(s.files, Some(cutoff)) && forall e <- c.entered :: cutoff <= c.entered[e].mtime
  }

  ghost predicate AllQuiet(s: Saved, cycles: seq<Cycle>)
    decreases |cycles|
  {
    cycles == [] || (Quiet(s, cycles[0]) && AllQuiet(NextSaved(s, cycles[0]), cycles[1..]))
  }

  /** What a caller can see is enough: quiet cycles are calm, however many. */
  lemma {:induction false} QuietCyclesAreCalm(s: Saved, cycles: seq<Cycle>)
    requires Sound(s) && AllLru(s, cycles) && AllQuiet(s, cycles)
    ensures AllCalm(s, cycles)
    decreases |cycles|
  {
    if cycles != [] {
      if s.lost.Keys != {} {
        var cutoff :| IsOldest(s.files, Some(cutoff)) && forall e <- cycles[0].entered :: cutoff <= cycles[0].entered[e].mtime;
        NothingOlderIsCalm(s, cycles[0], cutoff);
      }
      SoundIffCalm(s, cycles[0]);
      QuietCyclesAreCalm(NextSaved(s, cycles[0]), cycles[1..]);
    }
  }

  /** After calm cycles and a repair, a dated run unit that is left without a manifest is whole. */
  lemma RunUnitsSurviveCycles(cycles: seq<Cycle>, cutoff: Option<real>, units: map<UnitId, set<Path>>, prints: set<UnitId>,
                              stray: Path -> bool, verdicts: map<UnitId, Verdict>,
                              left: map<Place, Entry>, units': map<UnitId, set<Path>>, prints': set<UnitId>, id: UnitId)
    requires AllLru(Saved(map[], map[]), cycles) && AllCalm(Saved(map[], map[]), cycles)
    requires var s := SavedAfter(Saved(map[], map[]), cycles);
             && IsOldest(s.files, cutoff) && verdicts.Keys == units.Keys
             && JudgedAll(s.files, units, if cutoff.Some? then cutoff.value else 0.0, false, stray, verdicts)
             && RepairLeaves(s.files, units, prints, verdicts, left, units', prints')
             && id in units' && id in units && RunDated(UnitAt(s.files + s.lost, units[id], id))
             && !HasManifest(UnitAt(left, units'[id], id))
    ensures var s := SavedAfter(Saved(map[], map[]), cycles);
            UnitAt(left, units'[id], id) == UnitAt(s.files + s.lost, units[id], id) && (id in prints ==> id in prints')
  {
    var s := SavedAfter(Saved(map[], map[]), cycles);
    CalmCyclesSound(Saved(map[], map[]), cycles);
    LeftAlone(s.files, units, prints, verdicts, left, units', prints', id);
    assert verdicts[id] == KeepFar by {
      assert Judged(UnitAt(s.files, units[id], id), if cutoff.Some? then cutoff.value else 0.0, false, stray, verdicts[id]);
    }
    KeptRunLostNothing(s.files, s.lost, cutoff, units[id], id, stray);
  }

  /**
   Two cycles break it: the first prunes an output file, the second brings in an old file,
   which lowers the cutoff, and the unit is kept without its file.
   */
  lemma TwoCyclesLoseAFile(id: UnitId, stray: Path -> bool) returns (cycles: seq<Cycle>, cutoff: real)
    ensures |cycles| == 2 && AllLru(Saved(map[], map[]), cycles)
    ensures var s := SavedAfter(Saved(map[], map[]), cycles);
            && IsOldest(s.files, Some(cutoff)) && RunDated(UnitAt(s.files + s.lost, {"out"}, id))
            && !HasManifest(UnitAt(s.files, {"out"}, id)) && Judged(UnitAt(s.files, {"out"}, id), cutoff, false, stray, KeepFar)
            && UnitAt(s.files, {"out"}, id) != UnitAt(s.files + s.lost, {"out"}, id)
  {
    var first, second := FirstCycle(id), SecondCycle(id);
    cycles, cutoff := [first, second], 1000.0;
    var s0 := Saved(map[], map[]);
    FirstCyclePrunes(id);
    SecondCycleLowers(id, NextSaved(s0, first));
    assert cycles[1..] == [second];
    LastCycle(NextSaved(s0, first), second);
    KeptThoughLost(id, NextSaved(NextSaved(s0, first), second), stray);
  }

  function FirstCycle(id: UnitId): Cycle {
    Cycle(map[InUnit(id, "output") := Regular(20000.0, ""), InUnit(id, "out/bindgen.rs") := Regular(15000.0, "")],
          {InUnit(id, "output")})
  }

  function SecondCycle(id: UnitId): Cycle {
    Cycle(map[Elsewhere("deps/old.rlib") := Regular(1000.0, "")], {InUnit(id, "output"), Elsewhere("deps/old.rlib")})
  }

  lemma FirstCyclePrunes(id: UnitId)
    ensures var s := Saved(map[], map[]);
            && IsLru(s, FirstCycle(id))
            && NextSaved(s, FirstCycle(id)).files == map[InUnit(id, "output") := Regular(20000.0, "")]
            && NextSaved(s, FirstCycle(id)).lost == map[InUnit(id, "out/bindgen.rs") := Regular(15000.0, "")]
  {
    var s := Saved(map[], map[]);
    assert Grown(s, FirstCycle(id)) == FirstCycle(id).entered;
  }

  lemma SecondCycleLowers(id: UnitId, s: Saved)
    requires s.files == map[InUnit(id, "output") := Regular(20000.0, "")]
    requires s.lost == map[InUnit(id, "out/bindgen.rs") := Regular(15000.0, "")]
    ensures IsLru(s, SecondCycle(id))
    ensures NextSaved(s, SecondCycle(id)).files == map[InUnit(id, "output") := Regular(20000.0, ""), Elsewhere("deps/old.rlib") := Regular(1000.0, "")]
    ensures NextSaved(s, SecondCycle(id)).lost == s.lost
  {
    assert Grown(s, SecondCycle(id)) == map[InUnit(id, "output") := Regular(20000.0, ""), Elsewhere("deps/old.rlib") := Regular(1000.0, "")];
  }

  lemma LastCycle(s: Saved, c: Cycle)
    ensures SavedAfter(s, [c]) == NextSaved(s, c) && (AllLru(s, [c]) <==> IsLru(s, c))
  {
  }

  lemma KeptThoughLost(id: UnitId, s: Saved, stray: Path -> bool)
    requires s.files == map[InUnit(id, "output") := Regular(20000.0, ""), Elsewhere("deps/old.rlib") := Regular(1000.0, "")]
    requires s.lost == map[InUnit(id, "out/bindgen.rs") := Regular(15000.0, "")]
    ensures IsOldest(s.files, Some(1000.0)) && RunDated(UnitAt(s.files + s.lost, {"out"}, id))
    ensures !HasManifest(UnitAt(s.files, {"out"}, id)) && Judged(UnitAt(s.files, {"out"}, id), 1000.0, false, stray, KeepFar)
    ensures UnitAt(s.files, {"out"}, id) != UnitAt(s.files + s.lost, {"out"}, id)
  {
    var u, full := UnitAt(s.files, {"out"}, id), UnitAt(s.files + s.lost, {"out"}, id);
    UnitAtKeys(s.files, {"out"}, id);
    UnitAtKeys(s.files + s.lost, {"out"}, id);
    assert Elsewhere("deps/old.rlib") in s.files;
    assert InUnit(id, "out/bindgen.rs") in s.files + s.lost && "out/bindgen.rs" in full.files && "out/bindgen.rs" !in u.files;
    assert InUnit(id, "output") in s.files && "output" in u.files && JudgedBy(u, Some(20000.0), stray);
  }
}

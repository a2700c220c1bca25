/**
 Sealing and repairing a build cache at the unit level (scripts/ci_cache_units.py):
 `seal` writes each unit's manifest and freshens its outputs, a save then deletes files,
 and `repair` removes whole the units that may have lost one.
 */
module CacheUnits {
  import opened Common

  const MANIFEST: string := "out.manifest"
  /** The longest a build script may run, in seconds. */
  const R_MAX: real := 7200.0
  const RUN_FILES: set<Path> := {"out", "root-output", "stderr", "invoked.timestamp"}

  /** A path relative to its unit, with `/` between components. */
  type Path = string
  type UnitId = (string, string)

  datatype LinkTarget = Dangling | ToFile(mtime: real) | ToDir
  datatype Entry = Regular(mtime: real, text: string) | Link(mtime: real, target: LinkTarget)

  datatype Place = InUnit(id: UnitId, path: Path) | InPrint(id: UnitId, path: Path) | Elsewhere(path: Path)

  /** One unit as `rglob` sees it. */
  datatype Unit = Unit(files: map<Path, Entry>, dirs: set<Path>)

  predicate IsManifest(p: Path) {
    p == MANIFEST || (|p| > |MANIFEST| && p[|p| - |MANIFEST| - 1..] == "/" + MANIFEST)
  }

  predicate UnderOut(p: Path) {
    "out/" <= p
  }

  /** The part of a path behind its last slash. */
  function BaseName(p: Path): Path {
    if p == "" then "" else if '/' in p[1..] || p[0] == '/' then BaseName(p[1..]) else p
  }

  /** A manifest is known by its name, in whatever directory it lies. */
  lemma ManifestByName(p: Path)
    ensures IsManifest(p) <==> BaseName(p) == "out.manifest"
  {
    assert '/' !in MANIFEST;
    NamedIff(p, MANIFEST);
  }

  predicate Named(p: Path, n: Path) {
    p == n || (|p| > |n| && p[|p| - |n| - 1..] == "/" + n)
  }

  lemma {:induction false} NamedIff(p: Path, n: Path)
    requires '/' !in n && n != ""
    ensures Named(p, n) <==> BaseName(p) == n
  {
    if Named(p, n) && p != n {
      assert p[|p| - |n| - 1] == p[|p| - |n| - 1..][0] == '/';
    }
    if p != "" && ('/' in p[1..] || p[0] == '/') {
      NamedIff(p[1..], n);
      NamedTail(p, n);
    } else {
      assert '/' !in p;
    }
  }

  lemma NamedTail(p: Path, n: Path)
    requires '/' !in n && p != "" && ('/' in p[1..] || p[0] == '/')
    ensures Named(p, n) <==> Named(p[1..], n)
  {
    var q := p[1..];
    assert p == [p[0]] + q;
    if |q| > |n| {
      assert q[|q| - |n| - 1..] == p[|p| - |n| - 1..];
    }
  }

  function UnitAt(files: map<Place, Entry>, dirs: set<Path>, id: UnitId): Unit {
    Unit(map pl <- files | pl.InUnit? && pl.id == id :: pl.path := files[pl], dirs)
  }

  /** `files_of`: everything in the unit but manifests, wherever they lie in it. */
  function Listed(u: Unit): set<Path> {
    set p <- u.files | !IsManifest(p)
  }

  ghost predicate Enumerates(names: seq<Path>, all: set<Path>) {
    Alphabetical(names) && forall p :: p in names <==> p in all
  }

  ghost predicate ListsAll(files: map<Place, Entry>, units: map<UnitId, set<Path>>, listing: map<UnitId, seq<Path>>) {
    forall id <- listing :: id in units && Enumerates(listing[id], Listed(UnitAt(files, units[id], id)))
  }

  lemma ListsOneMore(files: map<Place, Entry>, units: map<UnitId, set<Path>>, listing: map<UnitId, seq<Path>>, id: UnitId, names: seq<Path>)
    requires ListsAll(files, units, listing) && id in units && Enumerates(names, Listed(UnitAt(files, units[id], id)))
    ensures ListsAll(files, units, listing[id := names])
  {
  }

  // ---------------------------------------------------------------- manifest text

  function Join(names: seq<Path>): string {
    if names == [] then "" else names[0] + "\n" + Join(names[1..])
  }

  /** The characters at which a text is split into lines. */
  predicate IsBreak(c: char) {
    c in {'\n', '\r', '\U{0B}', '\U{0C}', '\U{1C}', '\U{1D}', '\U{1E}', '\U{85}', '\U{2028}', '\U{2029}'}
  }

  predicate OneLine(s: string) {
    forall c <- s :: !IsBreak(c)
  }

  function FirstBreak(s: string): (i: nat)
    ensures i <= |s| && OneLine(s[..i]) && (i < |s| ==> IsBreak(s[i]))
  {
    if s == "" || IsBreak(s[0]) then 0
    else
      var i := 1 + FirstBreak(s[1..]);
      assert s[..i] == [s[0]] + s[1..][..i - 1];
      i
  }

  function SplitLines(s: string): seq<string>
    decreases |s|
  {
    if s == "" then []
    else
      var i := FirstBreak(s);
      if i == |s| then [s]
      else
        var skip := if s[i] == '\r' && i + 1 < |s| && s[i + 1] == '\n' then 2 else 1;
        [s[..i]] + SplitLines(s[i + skip..])
  }

  // ---------------------------------------------------------------- verdicts

  predicate LinkLives(e: Entry) {
    e.Regular? || !e.target.Dangling?
  }

  /** `stray` answers for a path that names no file and no directory of the unit, such as `.` */
  predicate Exists(u: Unit, p: Path, stray: Path -> bool) {
    if p in u.files then LinkLives(u.files[p]) else p in u.dirs || stray(p)
  }

  /** No file, or a link that leads nowhere, and no directory of the unit either, nor a way to one. */
  predicate Missing(u: Unit, p: Path, stray: Path -> bool) {
    if p in u.files then u.files[p].Link? && u.files[p].target.Dangling? else p !in u.dirs && !stray(p)
  }

  predicate HasManifest(u: Unit) {
    MANIFEST in u.files && u.files[MANIFEST].Regular?
  }

  /** A listed file is absent. */
  predicate BrokenUnit(u: Unit, stray: Path -> bool)
    requires HasManifest(u)
  {
    exists rel <- SplitLines(u.files[MANIFEST].text) :: rel != "" && Missing(u, rel, stray)
  }

  predicate IsFile(e: Entry) {
    e.Regular? || e.target.ToFile?
  }

  function StatMtime(e: Entry): real
    requires IsFile(e)
  {
    if e.Regular? then e.mtime else e.target.mtime
  }

  /** The mtime a manifest-less unit is judged by, if it has one. */
  ghost predicate JudgedBy(u: Unit, ref: Option<real>, stray: Path -> bool) {
    if "output" in u.files && u.files["output"].Regular? then ref == Some(u.files["output"].mtime)
    else if "output" in u.files && u.files["output"].target.ToFile? then ref == Some(u.files["output"].target.mtime)
    else if Exists(u, "out", stray) || Exists(u, "root-output", stray) || Exists(u, "stderr", stray) || Exists(u, "invoked.timestamp", stray)
    then ref == None
    else if u.files.Keys == {} then ref == None
    else ref.Some? && IsLatest(u, ref.value)
  }

  ghost predicate IsLatest(u: Unit, m: real) {
    && (exists p <- u.files :: u.files[p].mtime == m)
    && (forall p <- u.files :: u.files[p].mtime <= m)
  }

  datatype Verdict = KeepSealed | KeepFar | GoManifest | GoBoundary

  ghost predicate Judged(u: Unit, cutoff: real, strict: bool, stray: Path -> bool, v: Verdict) {
    if HasManifest(u) then v == if BrokenUnit(u, stray) then GoManifest else KeepSealed
    else if strict then v == GoBoundary
    else exists ref :: JudgedBy(u, ref, stray) && v == if ref.Some? && ref.value > cutoff + 7200.0 then KeepFar else GoBoundary
  }

  ghost predicate JudgedAll(files: map<Place, Entry>, units: map<UnitId, set<Path>>, cutoff: real, strict: bool, stray: Path -> bool,
                            verdicts: map<UnitId, Verdict>)
  {
    forall id <- verdicts :: id in units && Judged(UnitAt(files, units[id], id), cutoff, strict, stray, verdicts[id])
  }

  lemma JudgedAllGrows(files: map<Place, Entry>, units: map<UnitId, set<Path>>, cutoff: real, strict: bool, stray: Path -> bool,
                       verdicts: map<UnitId, Verdict>, id: UnitId, v: Verdict)
    requires JudgedAll(files, units, cutoff, strict, stray, verdicts)
    requires id in units && Judged(UnitAt(files, units[id], id), cutoff, strict, stray, v)
    ensures JudgedAll(files, units, cutoff, strict, stray, verdicts[id := v])
  {
  }

  predicate Removes(v: Verdict) {
    v == GoManifest || v == GoBoundary
  }

  // ---------------------------------------------------------------- the oldest file

  /** `os.walk` lists a link to a directory among the directories. */
  predicate Walked(e: Entry) {
    e.Regular? || !e.target.ToDir?
  }

  ghost predicate IsOldest(files: map<Place, Entry>, m: Option<real>) {
    match m
    case None => forall pl <- files :: files[pl].Link? && files[pl].target.ToDir?
    case Some(x) =>
      && (exists pl <- files :: !(files[pl].Link? && files[pl].target.ToDir?) && files[pl].mtime == x)
      && (forall pl <- files :: !(files[pl].Link? && files[pl].target.ToDir?) ==> x <= files[pl].mtime)
  }

  function CutoffOf(oldest: Option<real>): real {
    if oldest.Some? then oldest.value else 0.0
  }

  // ---------------------------------------------------------------- what seal writes

  function Freshened(p: Path, e: Entry, now: real): Entry {
    if UnderOut(p) && e.Regular? then Regular(now, e.text) else e
  }

  /** At one place: manifests of the listed units written, their outputs freshened, nothing else touched. */
  ghost predicate SealedAt(after: map<Place, Entry>, files: map<Place, Entry>, listing: map<UnitId, seq<Path>>, now: real,
                           pl: Place)
  {
    if pl.InUnit? && pl.id in listing && pl.path == MANIFEST then pl in after && after[pl] == Regular(now, Join(listing[pl.id]))
    else
      && (pl in after <==> pl in files)
      && (pl in files ==> after[pl] == if pl.InUnit? && pl.id in listing then Freshened(pl.path, files[pl], now) else files[pl])
  }

  ghost predicate Sealed(after: map<Place, Entry>, files: map<Place, Entry>, listing: map<UnitId, seq<Path>>, now: real) {
    forall pl :: SealedAt(after, files, listing, now, pl)
  }

  /** Each regular file under the `out/` of a unit is dated now and otherwise as it was. */
  ghost predicate OutputsFresh(after: map<Place, Entry>, files: map<Place, Entry>, ids: set<UnitId>, now: real) {
    forall id, p :: id in ids && "out/" <= p && InUnit(id, p) in files && files[InUnit(id, p)].Regular? ==>
      InUnit(id, p) in after && after[InUnit(id, p)] == Regular(now, files[InUnit(id, p)].text)
  }

  lemma SealFreshens(after: map<Place, Entry>, files: map<Place, Entry>, listing: map<UnitId, seq<Path>>, now: real)
    requires Sealed(after, files, listing, now)
    ensures OutputsFresh(after, files, listing.Keys, now)
  {
    assert MANIFEST[3] == '.';
    forall id, p | id in listing && "out/" <= p && InUnit(id, p) in files && files[InUnit(id, p)].Regular?
      ensures InUnit(id, p) in after && after[InUnit(id, p)] == Regular(now, files[InUnit(id, p)].text)
    {
      assert SealedAt(after, files, listing, now, InUnit(id, p));
    }
  }

  /** The regular files under the `out/` of these units. */
  function Outputs(files: map<Place, Entry>, ids: set<UnitId>): set<Place> {
    set pl <- files | pl.InUnit? && pl.id in ids && UnderOut(pl.path) && files[pl].Regular?
  }

  /** The units of `done` sealed as they stood at the start, and what was touched for it. */
  ghost predicate SealedSoFar(files: map<Place, Entry>, units: map<UnitId, set<Path>>, start: map<Place, Entry>, now: real,
                              listing: map<UnitId, seq<Path>>, touched: nat, done: set<UnitId>)
  {
    && listing.Keys == done && ListsAll(start, units, listing) && Sealed(files, start, listing, now)
    && touched == |Outputs(start, done)|
  }

  lemma NothingSealed(files: map<Place, Entry>, units: map<UnitId, set<Path>>, now: real)
    ensures SealedSoFar(files, units, files, now, map[], 0, {})
  {
    assert Outputs(files, {}) == {};
  }

  lemma OutputsGrow(files: map<Place, Entry>, ids: set<UnitId>, id: UnitId)
    requires id !in ids
    ensures |Outputs(files, ids + {id})| == |Outputs(files, ids)| + |Outputs(files, {id})|
  {
    assert Outputs(files, ids + {id}) == Outputs(files, ids) + Outputs(files, {id});
  }

  lemma OutputsOf(a: map<Place, Entry>, b: map<Place, Entry>, id: UnitId)
    requires forall p :: UnderOut(p) ==> (InUnit(id, p) in a <==> InUnit(id, p) in b)
    requires forall p :: UnderOut(p) && InUnit(id, p) in a ==> a[InUnit(id, p)] == b[InUnit(id, p)]
    ensures Outputs(a, {id}) == Outputs(b, {id})
  {
  }

  /** Neither sealing other units nor writing this one's manifest changes what is under its `out/`. */
  lemma SameOutputs(part: map<Place, Entry>, files: map<Place, Entry>, listing: map<UnitId, seq<Path>>, now: real, id: UnitId, m: Entry)
    requires Sealed(part, files, listing, now) && id !in listing
    ensures Outputs(part[InUnit(id, MANIFEST) := m], {id}) == Outputs(files, {id})
  {
    assert MANIFEST[3] == '.' && !UnderOut(MANIFEST);
    assert forall p :: SealedAt(part, files, listing, now, InUnit(id, p));
    OutputsOf(part[InUnit(id, MANIFEST) := m], files, id);
  }

  function TouchedFiles(files: map<Place, Entry>, id: UnitId, now: real): map<Place, Entry> {
    map pl <- files :: if pl.InUnit? && pl.id == id then Freshened(pl.path, files[pl], now) else files[pl]
  }

  function Without(files: map<Place, Entry>, gone: set<UnitId>): map<Place, Entry> {
    map pl <- files | pl.Elsewhere? || pl.id !in gone :: files[pl]
  }

  class CacheDir {
    var files: map<Place, Entry>
    /** Each unit's own directories, the unit itself being a key. */
    var units: map<UnitId, set<Path>>
    var prints: set<UnitId>

    constructor (files: map<Place, Entry>, units: map<UnitId, set<Path>>, prints: set<UnitId>)
      ensures this.files == files && this.units == units && this.prints == prints
    {
      this.files, this.units, this.prints := files, units, prints;
    }

    method FilesOf(id: UnitId) returns (names: seq<Path>)
      ensures Alphabetical(names) && forall p :: p in names <==> InUnit(id, p) in files && !IsManifest(p)
    {
      names := Alphabetized(set pl <- files | pl.InUnit? && pl.id == id && !IsManifest(pl.path) :: pl.path);
    }

    /** Freshen every regular file under the unit's `out/`, one by one. */
    method TouchOut(id: UnitId, now: real) returns (touched: nat)
      modifies this`files
      ensures files == TouchedFiles(old(files), id, now)
      ensures touched == |Outputs(old(files), {id})|
    {
      touched := 0;
      var all := Outputs(files, {id});
      var todo := all;
      while todo != {}
        invariant todo <= all && files.Keys == old(files.Keys)
        invariant forall pl <- files :: files[pl] == if pl in all - todo then Freshened(pl.path, old(files)[pl], now) else old(files)[pl]
        invariant touched == |all| - |todo|
        decreases |todo|
      {
        var pl :| pl in todo;
        todo := todo - {pl};
        files := files[pl := Regular(now, files[pl].text)];
        touched := touched + 1;
      }
      forall pl <- files ensures files[pl] == TouchedFiles(old(files), id, now)[pl] {
        assert pl in all <==> pl.InUnit? && pl.id == id && UnderOut(pl.path) && old(files)[pl].Regular?;
      }
    }

    method Seal(now: real) returns (sealed: nat, touched: nat, ghost listing: map<UnitId, seq<Path>>)
      modifies this`files
      ensures listing.Keys == units.Keys && sealed == |units.Keys| && touched == |Outputs(old(files), units.Keys)|
      ensures ListsAll(old(files), units, listing)
      ensures Sealed(files, old(files), listing, now) && OutputsFresh(files, old(files), units.Keys, now)
    {
      sealed, touched, listing := SealUnits(now);
      SealFreshens(files, old(files), listing, now);
    }

    method SealUnits(now: real) returns (sealed: nat, touched: nat, ghost listing: map<UnitId, seq<Path>>)
      modifies this`files
      ensures sealed == |units.Keys| && SealedSoFar(files, units, old(files), now, listing, touched, units.Keys)
    {
      sealed, touched, listing := 0, 0, map[];
      var ids := Units();
      NothingSealed(files, units, now);
      while sealed < |ids|
        invariant 0 <= sealed <= |ids|
        invariant SealedSoFar(files, units, old(files), now, listing, touched, First(ids, sealed))
      {
        FirstGrows(ids, sealed);
        touched, listing := SealUnit(ids[sealed], now, old(files), listing, touched, First(ids, sealed));
        sealed := sealed + 1;
      }
      assert sealed == |ids| && First(ids, sealed) == units.Keys;
    }

    /** The units in the order they are visited. */
    method Units() returns (ids: seq<UnitId>)
      ensures First(ids, |ids|) == units.Keys && |ids| == |units.Keys|
      ensures forall i, j :: 0 <= i < j < |ids| ==> ids[i] != ids[j]
    {
      ids := [];
      var todo := units.Keys;
      while todo != {}
        invariant todo <= units.Keys && |ids| + |todo| == |units.Keys|
        invariant forall id <- units :: id in ids <==> id !in todo
        invariant forall id <- ids :: id in units
        invariant forall i, j :: 0 <= i < j < |ids| ==> ids[i] != ids[j]
        decreases |todo|
      {
        var id :| id in todo;
        todo := todo - {id};
        assert forall i :: 0 <= i < |ids| ==> ids[i] in ids;
        ids := ids + [id];
      }
      assert ids[..|ids|] == ids;
    }

    /** One unit sealed, those of `done` being sealed already. */
    method SealUnit(id: UnitId, now: real, ghost start: map<Place, Entry>, ghost listing: map<UnitId, seq<Path>>,
                    before: nat, ghost done: set<UnitId>)
      returns (touched: nat, ghost listed: map<UnitId, seq<Path>>)
      requires id in units && id !in done && SealedSoFar(files, units, start, now, listing, before, done)
      modifies this`files
      ensures SealedSoFar(files, units, start, now, listed, touched, done + {id})
    {
      var names := FilesOf(id);
      ListedSame(files, start, listing, now, units[id], id, names);
      SameOutputs(files, start, listing, now, id, Regular(now, Join(names)));
      OutputsGrow(start, done, id);
      files := files[InUnit(id, MANIFEST) := Regular(now, Join(names))];
      var more := TouchOut(id, now);
      touched := before + more;
      ListsOneMore(start, units, listing, id, names);
      SealOne(start, listing, now, id, names, old(files), files);
      listed := listing[id := names];
    }

    method OldestMtime() returns (oldest: Option<real>)
      ensures IsOldest(files, oldest)
    {
      oldest := None;
      var todo := files.Keys;
      ghost var done: set<Place> := {};
      while todo != {}
        invariant done + todo == files.Keys
        invariant oldest.None? ==> forall pl <- done :: !Walked(files[pl])
        invariant oldest.Some? ==> exists pl <- files :: Walked(files[pl]) && files[pl].mtime == oldest.value
        invariant oldest.Some? ==> forall pl <- done :: Walked(files[pl]) ==> oldest.value <= files[pl].mtime
        decreases |todo|
      {
        var pl :| pl in todo;
        todo, done := todo - {pl}, done + {pl};
        if Walked(files[pl]) {
          var m := files[pl].mtime;
          if oldest.None? || m < oldest.value {
            oldest := Some(m);
          }
        }
      }
    }

    /** The mtimes of a unit that is neither a run unit nor empty, to their maximum. */
    static method Newest(u: Unit) returns (m: real)
      requires u.files.Keys != {}
      ensures IsLatest(u, m)
    {
      var first :| first in u.files;
      m := u.files[first].mtime;
      var todo := u.files.Keys;
      ghost var done: set<Path> := {};
      while todo != {}
        invariant done + todo == u.files.Keys
        invariant exists p <- u.files :: u.files[p].mtime == m
        invariant forall p <- done :: u.files[p].mtime <= m
        decreases |todo|
      {
        var p :| p in todo;
        todo, done := todo - {p}, done + {p};
        if u.files[p].mtime > m {
          m := u.files[p].mtime;
        }
      }
    }

    static method UnverifiedVerdict(u: Unit, cutoff: real, stray: Path -> bool) returns (v: Verdict)
      ensures exists ref :: JudgedBy(u, ref, stray) && v == if ref.Some? && ref.value > cutoff + 7200.0 then KeepFar else GoBoundary
    {
      var ref;
      if "output" in u.files && IsFile(u.files["output"]) {
        ref := StatMtime(u.files["output"]);
      } else if exists f <- RUN_FILES :: Exists(u, f, stray) {
        assert JudgedBy(u, None, stray);
        return GoBoundary;
      } else {
        if u.files.Keys == {} {
          assert JudgedBy(u, None, stray);
          return GoBoundary;
        }
        ref := Newest(u);
      }
      assert JudgedBy(u, Some(ref), stray);
      if ref <= cutoff + R_MAX {
        return GoBoundary;
      }
      return KeepFar;
    }

    static method Broken(u: Unit, stray: Path -> bool) returns (missing: bool)
      requires HasManifest(u)
      ensures missing <==> BrokenUnit(u, stray)
    {
      var lines := SplitLines(u.files[MANIFEST].text);
      var i := 0;
      while i < |lines|
        invariant 0 <= i <= |lines|
        invariant forall k :: 0 <= k < i ==> lines[k] == "" || Exists(u, lines[k], stray)
      {
        if lines[i] != "" && !Exists(u, lines[i], stray) {
          assert Missing(u, lines[i], stray);
          return true;
        }
        i := i + 1;
      }
      return false;
    }

    method Repair(strict: bool, stray: Path -> bool)
      returns (byManifest: nat, byBoundary: nat, kept: nat, ghost verdicts: map<UnitId, Verdict>, ghost cutoff: Option<real>)
      modifies this
      ensures IsOldest(old(files), cutoff) && verdicts.Keys == old(units.Keys)
      ensures JudgedAll(old(files), old(units), if cutoff.Some? then cutoff.value else 0.0, strict, stray, verdicts)
      ensures RepairLeaves(old(files), old(units), old(prints), verdicts, files, units, prints)
      ensures byManifest == |set id <- verdicts | verdicts[id] == GoManifest|
      ensures byBoundary == |set id <- verdicts | verdicts[id] == GoBoundary|
      ensures kept == |set id <- verdicts | verdicts[id] == KeepFar|
    {
      var oldest := OldestMtime();
      cutoff, verdicts := oldest, map[];
      var counts: (nat, nat, nat) := (0, 0, 0);
      var ids := Units();
      NothingGone(files, units, prints);
      for i := 0 to |ids|
        invariant RepairedSoFar(old(files), old(units), old(prints), CutoffOf(oldest), strict, stray, verdicts, First(ids, i))
        invariant counts == Tally(verdicts)
      {
        FirstGrows(ids, i);
        var v;
        v, verdicts := RepairNext(ids[i], CutoffOf(oldest), strict, stray, old(files), old(units), old(prints), verdicts, First(ids, i));
        counts := Bump(v, counts);
      }
      byManifest, byBoundary, kept := counts.0, counts.1, counts.2;
      WithoutLeaves(old(files), old(units), old(prints), verdicts);
    }

    /** The units of `done` judged on the tree as it stood, and the removed ones gone. */
    ghost predicate RepairedSoFar(files0: map<Place, Entry>, units0: map<UnitId, set<Path>>, prints0: set<UnitId>, cutoff: real,
                                  strict: bool, stray: Path -> bool, verdicts: map<UnitId, Verdict>, done: set<UnitId>)
      reads this
    {
      && verdicts.Keys == done && JudgedAll(files0, units0, cutoff, strict, stray, verdicts)
      && files == Without(files0, Gone(verdicts)) && units == units0 - Gone(verdicts) && prints == prints0 - Gone(verdicts)
    }

    method RepairNext(id: UnitId, cutoff: real, strict: bool, stray: Path -> bool, ghost files0: map<Place, Entry>,
                      ghost units0: map<UnitId, set<Path>>, ghost prints0: set<UnitId>, ghost verdicts: map<UnitId, Verdict>,
                      ghost done: set<UnitId>)
      returns (v: Verdict, ghost more: map<UnitId, Verdict>)
      requires id in units0 && id !in done && RepairedSoFar(files0, units0, prints0, cutoff, strict, stray, verdicts, done)
      modifies this
      ensures more == verdicts[id := v] && RepairedSoFar(files0, units0, prints0, cutoff, strict, stray, more, done + {id})
      ensures Tally(more) == Bump(v, Tally(verdicts))
    {
      UnitAtWithout(files0, Gone(verdicts), units[id], id);
      v := RepairUnit(id, cutoff, strict, stray);
      TallyGrows(verdicts, id, v);
      GoneGrows(files0, units0, prints0, verdicts, id, v);
      JudgedAllGrows(files0, units0, cutoff, strict, stray, verdicts, id, v);
      more := verdicts[id := v];
    }

    method RepairUnit(id: UnitId, cutoff: real, strict: bool, stray: Path -> bool) returns (v: Verdict)
      requires id in units
      modifies this
      ensures Judged(UnitAt(old(files), old(units)[id], id), cutoff, strict, stray, v)
      ensures !Removes(v) ==> files == old(files) && units == old(units) && prints == old(prints)
      ensures Removes(v) ==> files == Without(old(files), {id}) && units == old(units) - {id} && prints == old(prints) - {id}
    {
      v := Decide(UnitAt(files, units[id], id), cutoff, strict, stray);
      if Removes(v) {
        RemoveTree(id);
      }
    }

    static method Decide(u: Unit, cutoff: real, strict: bool, stray: Path -> bool) returns (v: Verdict)
      ensures Judged(u, cutoff, strict, stray, v)
    {
      if HasManifest(u) {
        var missing := Broken(u, stray);
        return if missing then GoManifest else KeepSealed;
      } else if strict {
        return GoBoundary;
      }
      v := UnverifiedVerdict(u, cutoff, stray);
    }

    /** Remove the unit and, where there is one, its fingerprint directory. */
    method RemoveTree(id: UnitId)
      modifies this
      ensures files == Without(old(files), {id}) && units == old(units) - {id} && prints == old(prints) - {id}
    {
      files := map pl <- files | pl.Elsewhere? || pl.id != id :: files[pl];
      units := units - {id};
      prints := prints - {id};
    }
  }

  ghost function First(ids: seq<UnitId>, n: nat): set<UnitId>
    requires n <= |ids|
  {
    set id <- ids[..n]
  }

  lemma FirstGrows(ids: seq<UnitId>, n: nat)
    requires n < |ids| && forall i, j :: 0 <= i < j < |ids| ==> ids[i] != ids[j]
    ensures First(ids, n + 1) == First(ids, n) + {ids[n]} && ids[n] !in First(ids, n) && ids[n] in First(ids, |ids|)
  {
  }

  function Gone(verdicts: map<UnitId, Verdict>): set<UnitId> {
    set id <- verdicts | Removes(verdicts[id])
  }

  /** How many units were judged each way that is reported. */
  function Tally(verdicts: map<UnitId, Verdict>): (nat, nat, nat) {
    (Count(verdicts, GoManifest), Count(verdicts, GoBoundary), Count(verdicts, KeepFar))
  }

  /** The counters after one more verdict; a sealed unit that is kept is not reported. */
  function Bump(v: Verdict, counts: (nat, nat, nat)): (nat, nat, nat) {
    match v
    case KeepSealed => counts
    case GoManifest => (counts.0 + 1, counts.1, counts.2)
    case GoBoundary => (counts.0, counts.1 + 1, counts.2)
    case KeepFar => (counts.0, counts.1, counts.2 + 1)
  }

  function Count(verdicts: map<UnitId, Verdict>, v: Verdict): nat {
    |set id <- verdicts | verdicts[id] == v|
  }

  lemma CountWithin(verdicts: map<UnitId, Verdict>, v: Verdict)
    ensures Count(verdicts, v) <= |verdicts.Keys|
  {
    var these := set id <- verdicts | verdicts[id] == v;
    assert verdicts.Keys == these + (verdicts.Keys - these);
  }

  lemma NothingGone(files: map<Place, Entry>, units: map<UnitId, set<Path>>, prints: set<UnitId>)
    ensures Gone(map[]) == {} && Tally(map[]) == (0, 0, 0)
    ensures Without(files, {}) == files && units - {} == units && prints - {} == prints
  {
    CountWithin(map[], GoManifest);
    CountWithin(map[], GoBoundary);
    CountWithin(map[], KeepFar);
  }

  lemma CountGrows(verdicts: map<UnitId, Verdict>, id: UnitId, v: Verdict, w: Verdict)
    requires id !in verdicts
    ensures Count(verdicts[id := v], w) == Count(verdicts, w) + if v == w then 1 else 0
  {
    var longer := verdicts[id := v];
    var before, after := (set i <- verdicts | verdicts[i] == w), (set i <- longer | longer[i] == w);
    assert after == before + if v == w then {id} else {};
  }

  lemma TallyGrows(verdicts: map<UnitId, Verdict>, id: UnitId, v: Verdict)
    requires id !in verdicts
    ensures Tally(verdicts[id := v]) == Bump(v, Tally(verdicts))
  {
    CountGrows(verdicts, id, v, GoManifest);
    CountGrows(verdicts, id, v, GoBoundary);
    CountGrows(verdicts, id, v, KeepFar);
  }

  lemma GoneGrows(files: map<Place, Entry>, units: map<UnitId, set<Path>>, prints: set<UnitId>, verdicts: map<UnitId, Verdict>,
                  id: UnitId, v: Verdict)
    requires id !in verdicts
    ensures var gone, more := Gone(verdicts), Gone(verdicts[id := v]);
            if Removes(v) then
              && Without(files, more) == Without(Without(files, gone), {id})
              && units - more == units - gone - {id} && prints - more == prints - gone - {id}
            else more == gone
  {
  }

  ghost predicate Stays(units: map<UnitId, set<Path>>, verdicts: map<UnitId, Verdict>, id: UnitId) {
    id !in units || (id in verdicts && (verdicts[id] == KeepSealed || verdicts[id] == KeepFar))
  }

  /** Units that were kept are as they were, files and fingerprint; of the others nothing is left; nothing else changed. */
  ghost predicate RepairLeaves(files0: map<Place, Entry>, units0: map<UnitId, set<Path>>, prints0: set<UnitId>,
                               verdicts: map<UnitId, Verdict>,
                               files: map<Place, Entry>, units: map<UnitId, set<Path>>, prints: set<UnitId>)
  {
    && (forall id :: id in units <==> id in units0 && Stays(units0, verdicts, id))
    && (forall id <- units :: units[id] == units0[id])
    && (forall id :: id in prints <==> id in prints0 && Stays(units0, verdicts, id))
    && (forall pl :: pl in files <==> pl in files0 && (pl.Elsewhere? || Stays(units0, verdicts, pl.id)))
    && (forall pl <- files :: files[pl] == files0[pl])
  }

  lemma WithoutLeaves(files: map<Place, Entry>, units: map<UnitId, set<Path>>, prints: set<UnitId>, verdicts: map<UnitId, Verdict>)
    requires verdicts.Keys == units.Keys
    ensures RepairLeaves(files, units, prints, verdicts, Without(files, Gone(verdicts)), units - Gone(verdicts), prints - Gone(verdicts))
  {
    assert forall id :: id in Gone(verdicts) <==> !Stays(units, verdicts, id);
  }

  lemma UnitAtWithout(files: map<Place, Entry>, gone: set<UnitId>, dirs: set<Path>, id: UnitId)
    requires id !in gone
    ensures UnitAt(Without(files, gone), dirs, id) == UnitAt(files, dirs, id)
  {
  }

  /** A unit not yet sealed still lists what it listed at the start. */
  lemma ListedSame(part: map<Place, Entry>, files: map<Place, Entry>, listing: map<UnitId, seq<Path>>, now: real,
                   dirs: set<Path>, id: UnitId, names: seq<Path>)
    requires id !in listing && Sealed(part, files, listing, now)
    requires forall p :: p in names <==> InUnit(id, p) in part && !IsManifest(p)
    requires Alphabetical(names)
    ensures Enumerates(names, Listed(UnitAt(files, dirs, id)))
  {
    forall p ensures p in names <==> p in Listed(UnitAt(files, dirs, id)) {
      assert SealedAt(part, files, listing, now, InUnit(id, p));
      assert p in UnitAt(files, dirs, id).files <==> InUnit(id, p) in files;
    }
  }

  lemma SealOne(files: map<Place, Entry>, listing: map<UnitId, seq<Path>>, now: real, id: UnitId,
                names: seq<Path>, before: map<Place, Entry>, after: map<Place, Entry>)
    requires id !in listing && Sealed(before, files, listing, now)
    requires after == TouchedFiles(before[InUnit(id, MANIFEST) := Regular(now, Join(names))], id, now)
    ensures Sealed(after, files, listing[id := names], now)
  {
    var listed := listing[id := names];
    forall pl ensures SealedAt(after, files, listed, now, pl) {
      assert SealedAt(before, files, listing, now, pl);
    }
  }
}

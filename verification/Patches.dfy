/** `PatchExecutor`: file patches with backups, and rollback. */
module Patches {

  type Path = string  // a resolved path
  type PatchId = string
  type Content = string

  /** How the file operations of one patch go: all succeed, one fails before the target is touched, or
      the write itself fails and leaves `left` behind. */
  datatype Io = Fine | FailsBefore | Torn(left: Content)

  datatype Patch = Patch(id: PatchId, path: Path, content: Content, io: Io)

  /** `backup` says whether the record has a rollback path; the backup file is found by patch id. */
  datatype Record = Record(id: PatchId, path: Path, success: bool, backup: bool)

  datatype Disk = Disk(files: map<Path, Content>, backups: map<PatchId, Content>, history: seq<Record>)

  const EMPTY: seq<Record> := []

  /** `apply_text_patch` */
  function Apply(d: Disk, p: Patch): Disk {
    var existed := p.path in d.files;
    match p.io
    case Fine =>
      Disk(d.files[p.path := p.content],
           if existed then d.backups[p.id := d.files[p.path]] else d.backups,
           d.history + [Record(p.id, p.path, true, existed)])
    case FailsBefore =>
      d.(history := d.history + [Record(p.id, p.path, false, false)])
    case Torn(left) =>
      d.(files := d.files[p.path := left], history := d.history + [Record(p.id, p.path, false, false)])
  }

  function ApplyAll(d: Disk, ps: seq<Patch>): Disk {
    if ps == [] then d else Apply(ApplyAll(d, ps[..|ps| - 1]), ps[|ps| - 1])
  }

  predicate Undoable(r: Record) {
    r.success && r.backup
  }

  /** Whether the copy that restores a patch succeeds is the file system's choice. */
  type Copies = PatchId -> bool

  predicate Restored(backups: map<PatchId, Content>, copies: Copies, r: Record) {
    Undoable(r) && r.id in backups && copies(r.id)
  }

  /** Copying the backup of record `r` over its file. */
  function Undo(files: map<Path, Content>, backups: map<PatchId, Content>, copies: Copies, r: Record)
    : map<Path, Content>
  {
    if Restored(backups, copies, r) then files[r.path := backups[r.id]] else files
  }

  /** Undo the records from the last to the first. */
  function UndoAll(files: map<Path, Content>, backups: map<PatchId, Content>, copies: Copies, h: seq<Record>)
    : map<Path, Content>
    decreases |h|
  {
    if h == [] then files
    else UndoAll(Undo(files, backups, copies, h[|h| - 1]), backups, copies, h[..|h| - 1])
  }

  function CountUndone(backups: map<PatchId, Content>, copies: Copies, h: seq<Record>): nat {
    if h == [] then 0
    else CountUndone(backups, copies, h[..|h| - 1]) + (if Restored(backups, copies, h[|h| - 1]) then 1 else 0)
  }

  /** The index after the last undoable record, or 0. */
  function LastUndoable(h: seq<Record>): (k: nat)
    ensures k <= |h|
    ensures k > 0 ==> Undoable(h[k - 1])
    ensures forall i | k <= i < |h| :: !Undoable(h[i])
  {
    if h == [] then 0 else if Undoable(h[|h| - 1]) then |h| else LastUndoable(h[..|h| - 1])
  }

  function RollbackLast(d: Disk, copies: Copies): Disk {
    var k := LastUndoable(d.history);
    if k == 0 then d else d.(files := Undo(d.files, d.backups, copies, d.history[k - 1]))
  }

  function RollbackAll(d: Disk, copies: Copies): Disk {
    d.(files := UndoAll(d.files, d.backups, copies, d.history))
  }

  // ---------------------------------------------------------------- rolling back everything

  /** The first record for path `p` that is restored, or |h|. */
  function FirstFor(backups: map<PatchId, Content>, copies: Copies, h: seq<Record>, p: Path): (k: nat)
    ensures k <= |h|
    ensures k < |h| ==> Restored(backups, copies, h[k]) && h[k].path == p
    ensures forall i | 0 <= i < k :: !(Restored(backups, copies, h[i]) && h[i].path == p)
  {
    if h == [] then 0
    else if Restored(backups, copies, h[0]) && h[0].path == p then 0
    else 1 + FirstFor(backups, copies, h[1..], p)
  }

  /** After undoing everything, a file holds the backup of its first restored record. */
  lemma {:induction false} UndoAllIsFirst(files: map<Path, Content>, backups: map<PatchId, Content>, copies: Copies,
          h: seq<Record>, p: Path)
    ensures var k, after := FirstFor(backups, copies, h, p), UndoAll(files, backups, copies, h);
      if k < |h| then p in after && after[p] == backups[h[k].id]
      else (p in after <==> p in files) && (p in after ==> after[p] == files[p])
    decreases |h|
  {
    if h != [] {
      var init, last := h[..|h| - 1], h[|h| - 1];
      assert h == init + [last];
      UndoAllIsFirst(Undo(files, backups, copies, last), backups, copies, init, p);
      FirstForPrefix(backups, copies, init, last, p);
    }
  }

  lemma FirstForPrefix(backups: map<PatchId, Content>, copies: Copies, init: seq<Record>, last: Record, p: Path)
    ensures FirstFor(backups, copies, init + [last], p)
         == (if FirstFor(backups, copies, init, p) < |init| then FirstFor(backups, copies, init, p)
             else if Restored(backups, copies, last) && last.path == p then |init| else |init| + 1)
  {
    var h := init + [last];
    var k, j := FirstFor(backups, copies, h, p), FirstFor(backups, copies, init, p);
    if k < |init| { assert h[k] == init[k]; }
    if j < |init| { assert h[j] == init[j]; }
    assert h[|init|] == last;
  }

  /** Restoring the last undoable patch a second time changes nothing more. */
  lemma {:induction false} RollbackLastIdempotent(d: Disk, copies: Copies)
    ensures RollbackLast(RollbackLast(d, copies), copies) == RollbackLast(d, copies)
  {
  }

  // ---------------------------------------------------------------- patch sequences

  ghost predicate DistinctIds(ps: seq<Patch>) {
    forall i, j | 0 <= i < j < |ps| :: ps[i].id != ps[j].id
  }

  function Start(files: map<Path, Content>): Disk {
    Disk(files, map[], EMPTY)
  }

  /** What a patch sequence leaves on record: entry i is patch i, and the backup of an undoable entry
      is the content its file had just before that patch. */
  ghost predicate Recorded(files: map<Path, Content>, ps: seq<Patch>, d: Disk) {
    && |d.history| == |ps|
    && forall i | 0 <= i < |ps| :: EntryOk(files, ps, d, i)
  }

  ghost predicate EntryOk(files: map<Path, Content>, ps: seq<Patch>, d: Disk, i: nat)
    requires i < |ps| && i < |d.history|
  {
    var r, before := d.history[i], ApplyAll(Start(files), ps[..i]).files;
    && r.id == ps[i].id && r.path == ps[i].path && (r.success <==> ps[i].io.Fine?)
    && (r.success ==> (r.backup <==> ps[i].path in before))
    && (Undoable(r) ==> r.id in d.backups && ps[i].path in before && d.backups[r.id] == before[ps[i].path])
  }

  lemma {:induction false} ApplyAllRecords(files: map<Path, Content>, ps: seq<Patch>)
    requires DistinctIds(ps)
    ensures Recorded(files, ps, ApplyAll(Start(files), ps))
    ensures forall id | id in ApplyAll(Start(files), ps).backups :: exists i :: 0 <= i < |ps| && ps[i].id == id
  {
    if ps != [] {
      var init, last := ps[..|ps| - 1], ps[|ps| - 1];
      ApplyAllRecords(files, init);
      var d0, d := ApplyAll(Start(files), init), ApplyAll(Start(files), ps);
      forall i | 0 <= i < |ps| ensures EntryOk(files, ps, d, i) {
        if i < |init| {
          assert EntryOk(files, init, d0, i);
          assert init[..i] == ps[..i] && init[i] == ps[i];
        }
      }
      forall id | id in d.backups ensures exists i :: 0 <= i < |ps| && ps[i].id == id {
        if id in d0.backups {
          var i :| 0 <= i < |init| && init[i].id == id;
          assert ps[i].id == id;
        } else {
          assert ps[|ps| - 1].id == id;
        }
      }
    }
  }

  /** The first successful patch of `p`, or |ps|. */
  function FirstSuccess(ps: seq<Patch>, p: Path): (k: nat)
    ensures k <= |ps|
    ensures k < |ps| ==> ps[k].io.Fine? && ps[k].path == p
    ensures forall i | 0 <= i < k :: !(ps[i].io.Fine? && ps[i].path == p)
  {
    if ps == [] then 0 else if ps[0].io.Fine? && ps[0].path == p then 0 else 1 + FirstSuccess(ps[1..], p)
  }

  ghost predicate NeverTorn(ps: seq<Patch>, p: Path) {
    forall i | 0 <= i < |ps| && ps[i].path == p :: !ps[i].io.Torn?
  }

  /** Without torn writes, a file keeps its content up to its first successful patch. */
  lemma {:induction false} UntouchedBefore(files: map<Path, Content>, ps: seq<Patch>, p: Path)
    requires NeverTorn(ps, p) && forall i | 0 <= i < |ps| :: !(ps[i].io.Fine? && ps[i].path == p)
    ensures var after := ApplyAll(Start(files), ps).files;
      (p in after <==> p in files) && (p in after ==> after[p] == files[p])
  {
    if ps != [] {
      UntouchedBefore(files, ps[..|ps| - 1], p);
    }
  }

  /** Without torn writes, a file that some patch created holds the content of the last successful one. */
  lemma {:induction false} PresentAfter(files: map<Path, Content>, ps: seq<Patch>, p: Path, k: nat)
    requires k < |ps| && ps[k].io.Fine? && ps[k].path == p
    ensures p in ApplyAll(Start(files), ps).files
  {
    if k < |ps| - 1 {
      PresentAfter(files, ps[..|ps| - 1], p, k);
    }
  }

  lemma {:induction false} KeptSince(files: map<Path, Content>, ps: seq<Patch>, p: Path, k: nat)
    requires k < |ps| && ps[k].io.Fine? && ps[k].path == p && NeverTorn(ps, p)
    requires forall i | k < i < |ps| :: !(ps[i].io.Fine? && ps[i].path == p)
    ensures p in ApplyAll(Start(files), ps).files && ApplyAll(Start(files), ps).files[p] == ps[k].content
  {
    if k < |ps| - 1 {
      KeptSince(files, ps[..|ps| - 1], p, k);
    }
  }

  /** Rolling back a patch sequence free of torn writes restores every file that existed before, and
      leaves a file the patches created at the first content they gave it. */
  lemma {:induction false} RollbackAllRestores(files: map<Path, Content>, ps: seq<Patch>, copies: Copies, p: Path)
    requires DistinctIds(ps) && NeverTorn(ps, p) && forall id :: copies(id)
    ensures var k, after := FirstSuccess(ps, p), RollbackAll(ApplyAll(Start(files), ps), copies).files;
      && (p in files ==> p in after && after[p] == files[p])
      && (p !in files && k < |ps| ==> p in after && after[p] == ps[k].content)
      && (p !in files && k == |ps| ==> p !in after)
  {
    var d := ApplyAll(Start(files), ps);
    ApplyAllRecords(files, ps);
    UndoAllIsFirst(d.files, d.backups, copies, d.history, p);
    var k, j := FirstSuccess(ps, p), FirstFor(d.backups, copies, d.history, p);
    RestoredIsFine(files, ps, d, copies, p);
    UntouchedBefore(files, ps[..k], p);
    if k == |ps| {
      assert ps[..k] == ps;
    } else if p in files {
      assert EntryOk(files, ps, d, k);
      FirstRestored(files, ps, d, copies, p, k, j);
    } else {
      CreatedFile(files, ps, d, copies, p, k, j);
    }
  }

  lemma RestoredIsFine(files: map<Path, Content>, ps: seq<Patch>, d: Disk, copies: Copies, p: Path)
    requires Recorded(files, ps, d)
    ensures var j := FirstFor(d.backups, copies, d.history, p); j < |ps| ==> ps[j].io.Fine? && ps[j].path == p
  {
    var j := FirstFor(d.backups, copies, d.history, p);
    if j < |ps| { assert EntryOk(files, ps, d, j); }
  }

  lemma FirstRestored(files: map<Path, Content>, ps: seq<Patch>, d: Disk, copies: Copies, p: Path, k: nat, j: nat)
    requires Recorded(files, ps, d) && k == FirstSuccess(ps, p) && j == FirstFor(d.backups, copies, d.history, p)
    requires k < |ps| && Restored(d.backups, copies, d.history[k])
    ensures j == k
  {
    assert EntryOk(files, ps, d, k);
    RestoredIsFine(files, ps, d, copies, p);
  }

  lemma TornPrefix(ps: seq<Patch>, p: Path, j: nat)
    requires NeverTorn(ps, p) && j <= |ps|
    ensures NeverTorn(ps[..j], p)
  {
  }

  lemma CreatedFile(files: map<Path, Content>, ps: seq<Patch>, d: Disk, copies: Copies, p: Path, k: nat, j: nat)
    requires Recorded(files, ps, d) && d == ApplyAll(Start(files), ps) && NeverTorn(ps, p) && forall id :: copies(id)
    requires k == FirstSuccess(ps, p) && j == FirstFor(d.backups, copies, d.history, p) && k < |ps|
    requires p !in ApplyAll(Start(files), ps[..k]).files
    ensures k < j
    ensures j < |ps| ==> d.backups[d.history[j].id] == ps[k].content
    ensures j == |ps| ==> p in d.files && d.files[p] == ps[k].content
  {
    hide ApplyAll, FirstSuccess, FirstFor, NeverTorn;
    assert EntryOk(files, ps, d, k);
    if j < |ps| { assert EntryOk(files, ps, d, j); }
    forall i | k < i < j ensures !(ps[i].io.Fine? && ps[i].path == p) {
      assert EntryOk(files, ps, d, i);
      PresentAfter(files, ps[..i], p, k);
    }
    TornPrefix(ps, p, j);
    var upTo := ps[..j];
    assert ps[..|ps|] == ps;
    KeptSince(files, upTo, p, k);
  }

  lemma {:induction false} NeverDeleted(files: map<Path, Content>, ps: seq<Patch>, p: Path)
    requires p in files
    ensures p in ApplyAll(Start(files), ps).files
  {
    if ps != [] { NeverDeleted(files, ps[..|ps| - 1], p); }
  }

  /** Whatever goes wrong on the way: an existing file gets back exactly the content it had just before
      its first successful patch. */
  lemma {:induction false} RollbackAllExact(files: map<Path, Content>, ps: seq<Patch>, copies: Copies, p: Path)
    requires DistinctIds(ps) && p in files && forall id :: copies(id)
    ensures var k, after := FirstSuccess(ps, p), RollbackAll(ApplyAll(Start(files), ps), copies).files;
      && p in after && p in ApplyAll(Start(files), ps[..k]).files
      && after[p] == ApplyAll(Start(files), ps[..k]).files[p]
  {
    var d := ApplyAll(Start(files), ps);
    ApplyAllRecords(files, ps);
    UndoAllIsFirst(d.files, d.backups, copies, d.history, p);
    var k, j := FirstSuccess(ps, p), FirstFor(d.backups, copies, d.history, p);
    RestoredIsFine(files, ps, d, copies, p);
    NeverDeleted(files, ps[..k], p);
    if k == |ps| {
      assert ps[..k] == ps;
    } else {
      assert EntryOk(files, ps, d, k);
      FirstRestored(files, ps, d, copies, p, k, j);
    }
  }

  /** What the last torn write on file `p` left behind, or `original` if there was none. */
  function LeftBehind(ps: seq<Patch>, p: Path, original: Content): Content {
    if ps == [] then original
    else if ps[|ps| - 1].path == p && ps[|ps| - 1].io.Torn? then ps[|ps| - 1].io.left
    else LeftBehind(ps[..|ps| - 1], p, original)
  }

  lemma {:induction false} OnlyTornWrites(files: map<Path, Content>, ps: seq<Patch>, p: Path)
    requires p in files && forall i | 0 <= i < |ps| :: !(ps[i].io.Fine? && ps[i].path == p)
    ensures p in ApplyAll(Start(files), ps).files
    ensures ApplyAll(Start(files), ps).files[p] == LeftBehind(ps, p, files[p])
  {
    if ps != [] { OnlyTornWrites(files, ps[..|ps| - 1], p); }
  }

  /** An existing file gets its original content back if and only if no torn write on it came before its
      first successful patch, or the last such write left the original content. */
  lemma {:induction false} OriginalRestoredIff(files: map<Path, Content>, ps: seq<Patch>, copies: Copies, p: Path)
    requires DistinctIds(ps) && p in files && forall id :: copies(id)
    ensures var after := RollbackAll(ApplyAll(Start(files), ps), copies).files;
      p in after && (after[p] == files[p] <==> LeftBehind(ps[..FirstSuccess(ps, p)], p, files[p]) == files[p])
  {
    hide RollbackAll, FirstSuccess, ApplyAll, LeftBehind;
    RollbackAllExact(files, ps, copies, p);
    OnlyTornWrites(files, ps[..FirstSuccess(ps, p)], p);
  }

  /** A torn write before the first successful patch is what rollback brings back. */
  lemma TornWriteIsNotUndone(p: Path, original: Content, left: Content, patched: Content, a: PatchId, b: PatchId,
                             copies: Copies)
    requires a != b && forall id :: copies(id)
    ensures var ps := [Patch(a, p, patched, Torn(left)), Patch(b, p, patched, Fine)];
      var after := RollbackAll(ApplyAll(Start(map[p := original]), ps), copies).files;
      p in after && after[p] == left
  {
    var files, ps := map[p := original], [Patch(a, p, patched, Torn(left)), Patch(b, p, patched, Fine)];
    RollbackAllExact(files, ps, copies, p);
    assert FirstSuccess(ps, p) == 1 by { assert !ps[0].io.Fine? && ps[1].io.Fine?; }
    assert ps[..1] == [ps[0]] && ps[..1][..0] == [];
  }

  /** How many patches were applied to an existing file. */
  function BackedUp(files: map<Path, Content>, ps: seq<Patch>): nat {
    if ps == [] then 0
    else
      var init, last := ps[..|ps| - 1], ps[|ps| - 1];
      BackedUp(files, init) + (if last.io.Fine? && last.path in ApplyAll(Start(files), init).files then 1 else 0)
  }

  /** `rollback_all` counts exactly the successful patches that had a backup. */
  lemma {:induction false} CountIsBackedUp(files: map<Path, Content>, ps: seq<Patch>, copies: Copies)
    requires DistinctIds(ps) && forall id :: copies(id)
    ensures var d := ApplyAll(Start(files), ps); CountUndone(d.backups, copies, d.history) == BackedUp(files, ps)
  {
    ApplyAllRecords(files, ps);
    var d := ApplyAll(Start(files), ps);
    CountPrefix(files, ps, d, copies, |ps|);
    assert ps[..|ps|] == ps && d.history[..|ps|] == d.history;
  }

  lemma {:induction false} CountPrefix(files: map<Path, Content>, ps: seq<Patch>, d: Disk, copies: Copies, n: nat)
    requires Recorded(files, ps, d) && n <= |ps| && forall id :: copies(id)
    ensures CountUndone(d.backups, copies, d.history[..n]) == BackedUp(files, ps[..n])
  {
    if n > 0 {
      CountPrefix(files, ps, d, copies, n - 1);
      assert EntryOk(files, ps, d, n - 1);
      assert ps[..n][..n - 1] == ps[..n - 1] && d.history[..n][..n - 1] == d.history[..n - 1];
    }
  }
}

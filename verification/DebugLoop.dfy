/** `PatchExecutor` as an object and `DebugLoop.run`, the loop that patches, tests and rolls back. */
module DebugLoop {
  import opened Patches

  /** Patch ids are distinct and every undoable record has its backup. */
  ghost predicate Consistent(d: Disk) {
    && (forall i, j | 0 <= i < j < |d.history| :: d.history[i].id != d.history[j].id)
    && (forall r | r in d.history && Undoable(r) :: r.id in d.backups)
  }

  lemma ApplyConsistent(d: Disk, p: Patch)
    requires Consistent(d) && forall r | r in d.history :: r.id != p.id
    ensures Consistent(Apply(d, p))
  {
    assert forall i | 0 <= i < |d.history| :: d.history[i] in d.history;
  }

  class PatchExecutor {
    var files: map<Path, Content>
    var backups: map<PatchId, Content>
    var history: seq<Record>

    constructor (files: map<Path, Content>)
      ensures View() == Start(files) && Consistent(View())
    {
      this.files, backups, history := files, map[], EMPTY;
    }

    function View(): Disk
      reads this
    {
      Disk(files, backups, history)
    }

    /** `id` is the generated patch id. */
    method ApplyTextPatch(path: Path, content: Content, id: PatchId, io: Io) returns (record: Record)
      requires Consistent(View()) && forall r | r in history :: r.id != id
      modifies this
      ensures View() == Apply(old(View()), Patch(id, path, content, io)) && Consistent(View())
      ensures history == old(history) + [record]
      ensures record.success <==> io.Fine?
      ensures record == Record(id, path, io.Fine?, io.Fine? && path in old(files))
      ensures files == (match io
                        case Fine => old(files)[path := content]
                        case FailsBefore => old(files)
                        case Torn(left) => old(files)[path := left])
      ensures backups == if record.backup then old(backups)[id := old(files)[path]] else old(backups)
    {
      ApplyConsistent(View(), Patch(id, path, content, io));
      if io.Fine? {
        var hasBackup := path in files;
        if hasBackup { backups := backups[id := files[path]]; }
        files := files[path := content];
        record := Record(id, path, true, hasBackup);
      } else {
        if io.Torn? { files := files[path := io.left]; }
        record := Record(id, path, false, false);
      }
      history := history + [record];
    }

    /** Restores one patch by id: true exactly when a record with a backup was copied back. */
    method Rollback(id: PatchId, copies: Copies) returns (done: bool)
      requires Consistent(View())
      modifies this`files
      ensures forall r | r in history && r.id == id ::
                done == (Undoable(r) && copies(id)) && files == Undo(old(files), backups, copies, r)
      ensures (forall r | r in history :: r.id != id) ==> !done && files == old(files)
      ensures !done ==> files == old(files)
      ensures done ==>
                id in backups && forall r | r in history && r.id == id :: files == old(files)[r.path := backups[id]]
    {
      for i := 0 to |history|
        invariant files == old(files)
        invariant forall j | 0 <= j < i :: history[j].id != id
      {
        var r := history[i];
        assert r in history;
        if r.id == id {
          if !(r.success && r.backup) { return false; }
          if r.id !in backups || !copies(id) { return false; }
          files := files[r.path := backups[r.id]];
          return true;
        }
      }
      return false;
    }

    method RollbackLast(copies: Copies) returns (done: bool)
      requires Consistent(View())
      modifies this`files
      ensures View() == Patches.RollbackLast(old(View()), copies)
      ensures done <==> LastUndoable(history) > 0 && copies(history[LastUndoable(history) - 1].id)
      ensures !done ==> files == old(files)
      ensures done ==>
                var r := history[LastUndoable(history) - 1];
                r.id in backups && files == old(files)[r.path := backups[r.id]]
    {
      var i := |history|;
      while i > 0
        invariant 0 <= i <= |history| && files == old(files)
        invariant forall j | i <= j < |history| :: !Undoable(history[j])
      {
        i := i - 1;
        var r := history[i];
        if r.success && r.backup {
          LastIs(history, i + 1);
          assert r in history;
          hide Consistent, LastUndoable;
          done := Rollback(r.id, copies);
          return;
        }
      }
      LastIs(history, 0);
      return false;
    }

    method RollbackAll(copies: Copies) returns (count: nat)
      requires Consistent(View())
      modifies this`files
      ensures View() == Patches.RollbackAll(old(View()), copies)
      ensures count == CountUndone(backups, copies, history)
    {
      count := 0;
      var i := |history|;
      assert history[..i] == history;
      while i > 0
        invariant 0 <= i <= |history|
        invariant UndoAll(files, backups, copies, history[..i]) == UndoAll(old(files), backups, copies, history)
        invariant count + CountUndone(backups, copies, history[..i]) == CountUndone(backups, copies, history)
      {
        i := i - 1;
        var r := history[i];
        assert r in history && history[..i + 1][..i] == history[..i];
        if r.success {
          var done := Rollback(r.id, copies);
          if done { count := count + 1; }
        }
      }
    }
  }

  lemma LastIs(h: seq<Record>, k: nat)
    requires k <= |h| && (k > 0 ==> Undoable(h[k - 1])) && forall i | k <= i < |h| :: !Undoable(h[i])
    ensures LastUndoable(h) == k
  {
    var j := LastUndoable(h);
  }

  // ---------------------------------------------------------------- one iteration

  const ROLLBACK_THRESHOLD: real := 0.55

  /** Everything around the loop: the planned edits of an iteration, which files qualify, the heuristic
      rewriting of a content, the planned confidence, the test outcome, how the file operations of
      the n-th patch go, and the generated ids. */
  datatype Env = Env(edits: nat -> seq<Path>, eligible: Path -> bool, rewrite: (nat, Content) -> Content,
                     confidence: nat -> real, passes: nat -> bool, io: nat -> Io, ids: nat -> PatchId, copies: Copies)

  datatype Iteration = Iteration(number: nat, applied: nat, passed: bool, rolledBack: bool, confidence: real)

  /** History entries carry the generated ids in order. */
  ghost predicate IdsInOrder(d: Disk, env: Env) {
    && Consistent(d)
    && (forall i | 0 <= i < |d.history| :: d.history[i].id == env.ids(i))
    && (forall i: nat, j: nat | i != j :: env.ids(i) != env.ids(j))
  }

  function CountFine(ps: seq<Patch>): nat {
    if ps == [] then 0 else CountFine(ps[..|ps| - 1]) + (if ps[|ps| - 1].io.Fine? then 1 else 0)
  }

  /** Patches of this loop replace the content of existing files. */
  ghost predicate OnExisting(d: Disk, ps: seq<Patch>) {
    forall i | 0 <= i < |ps| :: ps[i].path in ApplyAll(d, ps[..i]).files
  }

  /** An edit of the path changes something: the file is there, qualifies, and is rewritten to other content. */
  ghost predicate Changes(d: Disk, path: Path, number: nat, env: Env) {
    path in d.files && env.eligible(path) && env.rewrite(number, d.files[path]) != d.files[path]
  }

  /** `p` is the patch that the edit asks for on this disk: the next id, and the n-th way the files respond. */
  ghost predicate PatchOf(d: Disk, path: Path, number: nat, env: Env, n: nat, p: Patch) {
    path in d.files && p == Patch(env.ids(n), path, env.rewrite(number, d.files[path]), env.io(n))
  }

  /** The edit of `path`, looked at on the disk that the first k patches left, asks for patch k or for none. */
  ghost predicate AskStep(d: Disk, path: Path, number: nat, env: Env, ps: seq<Patch>, k: nat, k': nat) {
    && k <= |ps|
    && var before := ApplyAll(d, ps[..k]);
       if Changes(before, path, number, env)
       then k' == k + 1 && k < |ps| && PatchOf(before, path, number, env, |d.history| + k, ps[k])
       else k' == k
  }

  /** Taken in order, `edits` ask for the patches `ps`; `c[i]` is how many the first i of them ask for. */
  ghost predicate AskedFor(d: Disk, edits: seq<Path>, number: nat, env: Env, ps: seq<Patch>, c: seq<nat>) {
    && |c| == |edits| + 1 && c[0] == 0 && c[|edits|] == |ps|
    && forall i, j | 0 <= i && j == i + 1 && j < |c| :: AskStep(d, edits[i], number, env, ps, c[i], c[j])
  }

  /** These are the patches of an iteration: what the first three planned edits ask for. */
  ghost predicate ByPlan(d: Disk, number: nat, env: Env, ps: seq<Patch>) {
    exists c :: AskedFor(d, FirstThree(env.edits(number)), number, env, ps, c)
  }

  ghost function FirstThree(edits: seq<Path>): seq<Path> {
    if |edits| > 3 then edits[..3] else edits
  }

  /** What the loop has done after `edits`. */
  ghost predicate SoFar(d: Disk, now: Disk, edits: seq<Path>, number: nat, env: Env, ps: seq<Patch>, c: seq<nat>) {
    && now == ApplyAll(d, ps) && IdsInOrder(now, env) && OnExisting(d, ps) && |ps| <= |edits|
    && |now.history| == |d.history| + |ps|
    && AskedFor(d, edits, number, env, ps, c)
  }

  lemma {:induction false} SoFarNothing(d: Disk, number: nat, env: Env)
    requires IdsInOrder(d, env)
    ensures SoFar(d, d, [], number, env, [], [0])
  {
  }

  lemma {:induction false} StepKept(d: Disk, path: Path, number: nat, env: Env, ps: seq<Patch>, k: nat, k': nat,
                                    p: Patch)
    requires AskStep(d, path, number, env, ps, k, k') && k' <= |ps|
    ensures AskStep(d, path, number, env, ps + [p], k, k')
  {
    hide Changes, PatchOf, ApplyAll;
    assert (ps + [p])[..k] == ps[..k];
  }

  lemma {:induction false} CountsWithin(d: Disk, edits: seq<Path>, number: nat, env: Env, ps: seq<Patch>, c: seq<nat>,
                                        i: nat)
    requires AskedFor(d, edits, number, env, ps, c) && i < |c|
    ensures c[i] <= |ps|
  {
    if i < |edits| { assert AskStep(d, edits[i], number, env, ps, c[i], c[i + 1]); }
  }

  lemma {:induction false} AskedOneMore(d: Disk, edits: seq<Path>, number: nat, env: Env, ps: seq<Patch>, c: seq<nat>,
                                        path: Path, p: Patch)
    requires AskedFor(d, edits, number, env, ps, c) && AskStep(d, path, number, env, ps + [p], |ps|, |ps| + 1)
    ensures AskedFor(d, edits + [path], number, env, ps + [p], c + [|ps| + 1])
  {
    var qs, c', paths := ps + [p], c + [|ps| + 1], edits + [path];
    forall i, j | 0 <= i && j == i + 1 && j < |c'| ensures AskStep(d, paths[i], number, env, qs, c'[i], c'[j]) {
      if j < |c| {
        CountsWithin(d, edits, number, env, ps, c, j);
        StepKept(d, edits[i], number, env, ps, c[i], c[j], p);
      }
    }
  }

  lemma {:induction false} AskedNoMore(d: Disk, edits: seq<Path>, number: nat, env: Env, ps: seq<Patch>, c: seq<nat>,
                                       path: Path)
    requires AskedFor(d, edits, number, env, ps, c) && AskStep(d, path, number, env, ps, |ps|, |ps|)
    ensures AskedFor(d, edits + [path], number, env, ps, c + [|ps|])
  {
    hide AskStep;
    var c', paths := c + [|ps|], edits + [path];
    forall i, j | 0 <= i && j == i + 1 && j < |c'| ensures AskStep(d, paths[i], number, env, ps, c'[i], c'[j]) {
      if j < |c| { assert AskStep(d, edits[i], number, env, ps, c[i], c[j]); }
    }
  }

  /** One more patch, made of the edit of `path`. */
  lemma {:induction false} SoFarMore(d: Disk, now: Disk, edits: seq<Path>, number: nat, env: Env, ps: seq<Patch>,
                                     c: seq<nat>, path: Path, p: Patch)
    requires SoFar(d, now, edits, number, env, ps, c) && Changes(now, path, number, env)
    requires PatchOf(now, path, number, env, |now.history|, p)
    ensures Consistent(now) && forall r | r in now.history :: r.id != p.id
    ensures SoFar(d, Apply(now, p), edits + [path], number, env, ps + [p], c + [|ps| + 1])
    ensures CountFine(ps + [p]) == CountFine(ps) + (if p.io.Fine? then 1 else 0)
  {
    hide AskedFor, OnExisting, IdsInOrder, Changes, Consistent;
    assert (ps + [p])[..|ps|] == ps && ps[..|ps|] == ps;
    OnExistingSnoc(d, ps, p);
    NextIdFree(now, env, p);
    AskedOneMore(d, edits, number, env, ps, c, path, p);
  }

  lemma {:induction false} SoFarSame(d: Disk, now: Disk, edits: seq<Path>, number: nat, env: Env, ps: seq<Patch>,
                                     c: seq<nat>, path: Path)
    requires SoFar(d, now, edits, number, env, ps, c) && !Changes(now, path, number, env)
    ensures SoFar(d, now, edits + [path], number, env, ps, c + [|ps|])
  {
    hide AskedFor, OnExisting, IdsInOrder, Changes, PatchOf, ApplyAll;
    assert ps[..|ps|] == ps;
    AskedNoMore(d, edits, number, env, ps, c, path);
  }

  /** `_apply_heuristic_patches`: at most three edits, on existing eligible files whose content changes. */
  method ApplyHeuristicPatches(ex: PatchExecutor, iteration: nat, env: Env) returns (applied: nat, ghost ps: seq<Patch>)
    requires IdsInOrder(ex.View(), env)
    modifies ex
    ensures ex.View() == ApplyAll(old(ex.View()), ps) && IdsInOrder(ex.View(), env)
    ensures OnExisting(old(ex.View()), ps) && applied == CountFine(ps) && |ps| <= 3
    ensures ByPlan(old(ex.View()), iteration, env, ps)
  {
    hide SoFar, CountFine, IdsInOrder, Consistent, Apply, OnExisting, ByPlan;
    ghost var d := ex.View();
    ghost var c: seq<nat> := [0];
    SoFarNothing(d, iteration, env);
    NoneFine();
    var edits := env.edits(iteration);
    if |edits| > 3 { edits := edits[..3]; }
    applied, ps := 0, [];
    for i := 0 to |edits|
      invariant SoFar(d, ex.View(), edits[..i], iteration, env, ps, c) && applied == CountFine(ps)
    {
      var path := edits[i];
      assert edits[..i + 1] == edits[..i] + [path];
      ghost var before := ex.View();
      ghost var count := |ps|;
      if path in ex.files && env.eligible(path) {
        var content := ex.files[path];
        var patched := env.rewrite(iteration, content);
        if patched != content {
          var n := |ex.history|;
          ghost var p := Patch(env.ids(n), path, patched, env.io(n));
          SoFarMore(d, before, edits[..i], iteration, env, ps, c, path, p);
          ps, count := ps + [p], count + 1;
          var record := ex.ApplyTextPatch(path, patched, env.ids(n), env.io(n));
          if record.success { applied := applied + 1; }
        }
      }
      if !Changes(before, path, iteration, env) {
        SoFarSame(d, before, edits[..i], iteration, env, ps, c, path);
      }
      c := c + [count];
    }
    assert edits[..|edits|] == edits;
    PlanDone(d, ex.View(), iteration, env, edits, ps, c);
  }

  lemma NoneFine()
    ensures CountFine([]) == 0
  {
  }

  lemma {:induction false} PlanDone(d: Disk, now: Disk, number: nat, env: Env, edits: seq<Path>, ps: seq<Patch>,
                                    c: seq<nat>)
    requires SoFar(d, now, edits, number, env, ps, c) && edits == FirstThree(env.edits(number))
    ensures ByPlan(d, number, env, ps) && now == ApplyAll(d, ps) && IdsInOrder(now, env)
    ensures OnExisting(d, ps) && |ps| <= 3
  {
    hide AskedFor, OnExisting, IdsInOrder;
  }

  lemma {:induction false} NextIdFree(d: Disk, env: Env, p: Patch)
    requires IdsInOrder(d, env) && p.id == env.ids(|d.history|)
    ensures Consistent(d) && IdsInOrder(Apply(d, p), env)
    ensures forall r | r in d.history :: r.id != p.id
  {
    ApplyConsistent(d, p);
  }

  /** The plan and the disk determine the patches. */
  lemma {:induction false} PlanDetermines(d: Disk, number: nat, env: Env, ps: seq<Patch>, qs: seq<Patch>)
    requires ByPlan(d, number, env, ps) && ByPlan(d, number, env, qs)
    ensures ps == qs
  {
    hide AskedFor;
    var edits := FirstThree(env.edits(number));
    var b :| AskedFor(d, edits, number, env, ps, b);
    var c :| AskedFor(d, edits, number, env, qs, c);
    SameSoFar(d, edits, number, env, ps, b, qs, c, |edits|);
    AskedAll(d, edits, number, env, ps, b);
    AskedAll(d, edits, number, env, qs, c);
  }

  lemma {:induction false} AskedAll(d: Disk, edits: seq<Path>, number: nat, env: Env, ps: seq<Patch>, c: seq<nat>)
    requires AskedFor(d, edits, number, env, ps, c)
    ensures |c| == |edits| + 1 && c[|edits|] == |ps| && ps[..|ps|] == ps
  {
  }

  lemma {:induction false} SameSoFar(d: Disk, edits: seq<Path>, number: nat, env: Env, ps: seq<Patch>, b: seq<nat>,
                                     qs: seq<Patch>, c: seq<nat>, i: nat)
    requires AskedFor(d, edits, number, env, ps, b) && AskedFor(d, edits, number, env, qs, c) && i <= |edits|
    ensures i < |b| && i < |c| && b[i] == c[i] <= |ps| && b[i] <= |qs| && ps[..b[i]] == qs[..c[i]]
  {
    if i > 0 {
      SameSoFar(d, edits, number, env, ps, b, qs, c, i - 1);
      assert AskStep(d, edits[i - 1], number, env, ps, b[i - 1], b[i]);
      assert AskStep(d, edits[i - 1], number, env, qs, c[i - 1], c[i]);
      hide AskedFor;
      SameStep(d, edits[i - 1], number, env, ps, qs, b[i - 1], b[i], c[i]);
    }
  }

  lemma {:induction false} SameStep(d: Disk, path: Path, number: nat, env: Env, ps: seq<Patch>, qs: seq<Patch>,
                                    k: nat, a: nat, b: nat)
    requires k <= |ps| && k <= |qs| && ps[..k] == qs[..k]
    requires AskStep(d, path, number, env, ps, k, a) && AskStep(d, path, number, env, qs, k, b)
    ensures a == b && a <= |ps| && a <= |qs| && ps[..a] == qs[..a]
  {
    hide Changes, ApplyAll;
    if a == k + 1 {
      assert ps[..k + 1] == ps[..k] + [ps[k]] && qs[..k + 1] == qs[..k] + [qs[k]];
    }
  }

  lemma OnExistingSnoc(d: Disk, ps: seq<Patch>, p: Patch)
    requires OnExisting(d, ps) && p.path in ApplyAll(d, ps).files
    ensures OnExisting(d, ps + [p])
  {
    var qs := ps + [p];
    forall i | 0 <= i < |qs| ensures qs[i].path in ApplyAll(d, qs[..i]).files {
      assert qs[..i] == ps[..i];
      if i == |ps| { assert ps[..i] == ps; }
    }
  }

  /** The last successful patch, or none: the index after it, or 0. */
  function LastFine(ps: seq<Patch>): (k: nat)
    ensures k <= |ps|
    ensures k > 0 ==> ps[k - 1].io.Fine?
    ensures forall i | k <= i < |ps| :: !ps[i].io.Fine?
    ensures k == 0 <==> CountFine(ps) == 0
  {
    if ps == [] then 0 else if ps[|ps| - 1].io.Fine? then |ps| else LastFine(ps[..|ps| - 1])
  }

  /** Entry n is the last undoable one; it is the record of `p`, backed up as `content`. */
  ghost predicate LastRecord(d: Disk, n: nat, p: Patch, content: Content) {
    && LastUndoable(d.history) == n + 1
    && d.history[n] == Record(p.id, p.path, true, true)
    && p.id in d.backups && d.backups[p.id] == content
  }

  lemma SuccessfulRecords(d: Disk, p: Patch)
    requires p.io.Fine? && p.path in d.files
    ensures LastRecord(Apply(d, p), |d.history|, p, d.files[p.path])
  {
    LastIs(Apply(d, p).history, |d.history| + 1);
  }

  lemma UnsuccessfulKeeps(d: Disk, q: Patch, n: nat, p: Patch, content: Content)
    requires !q.io.Fine? && LastRecord(d, n, p, content)
    ensures LastRecord(Apply(d, q), n, p, content)
  {
    LastIs(Apply(d, q).history, n + 1);
  }

  lemma OnExistingAt(d: Disk, ps: seq<Patch>, k: nat)
    requires OnExisting(d, ps) && k < |ps|
    ensures ps[k].path in ApplyAll(d, ps[..k]).files
  {
    hide ApplyAll;
  }

  /** The record and the backup of the last successful patch. */
  lemma {:induction false} LastPatchRecorded(d: Disk, ps: seq<Patch>)
    requires OnExisting(d, ps) && LastFine(ps) > 0
    ensures var k := LastFine(ps) - 1;
      && ps[k].path in ApplyAll(d, ps[..k]).files
      && LastRecord(ApplyAll(d, ps), |d.history| + k, ps[k], ApplyAll(d, ps[..k]).files[ps[k].path])
  {
    hide LastRecord, Apply, OnExisting, CountFine;
    var k := LastFine(ps) - 1;
    var init, last := ps[..|ps| - 1], ps[|ps| - 1];
    OnExistingAt(d, ps, k);
    if k == |ps| - 1 {
      HistoryLength(d, init);
      SuccessfulRecords(ApplyAll(d, init), last);
    } else {
      OnExistingFront(d, ps);
      LastPatchRecorded(d, init);
      assert init[..k] == ps[..k] && init[k] == ps[k];
      UnsuccessfulKeeps(ApplyAll(d, init), last, |d.history| + k, ps[k], ApplyAll(d, ps[..k]).files[ps[k].path]);
    }
  }

  /** After patches on existing files, rolling back the last one restores the last successfully patched
      file to its content just before that patch and touches nothing else. */
  lemma {:induction false} LastPatchUndone(d: Disk, ps: seq<Patch>, copies: Copies)
    requires OnExisting(d, ps) && LastFine(ps) > 0
    ensures var k, after := LastFine(ps) - 1, ApplyAll(d, ps);
      && LastUndoable(after.history) > 0 && after.history[LastUndoable(after.history) - 1].id == ps[k].id
      && ps[k].path in ApplyAll(d, ps[..k]).files
      && (copies(ps[k].id) ==>
            RollbackLast(after, copies).files == after.files[ps[k].path := ApplyAll(d, ps[..k]).files[ps[k].path]])
  {
    hide LastFine, OnExisting, ApplyAll, LastUndoable, Apply, Consistent;
    LastPatchRecorded(d, ps);
  }

  lemma {:induction false} HistoryLength(d: Disk, ps: seq<Patch>)
    ensures |ApplyAll(d, ps).history| == |d.history| + |ps|
  {
    if ps != [] { HistoryLength(d, ps[..|ps| - 1]); }
  }

  lemma OnExistingFront(d: Disk, ps: seq<Patch>)
    requires OnExisting(d, ps) && ps != []
    ensures OnExisting(d, ps[..|ps| - 1])
  {
    var init := ps[..|ps| - 1];
    forall i | 0 <= i < |init| ensures init[i].path in ApplyAll(d, init[..i]).files {
      assert init[..i] == ps[..i];
    }
  }

  /** What one iteration does: patches on existing files, a test, and a rollback of the last patch only
      after a failed test with low confidence. */
  ghost predicate Iterated(d: Disk, d': Disk, it: Iteration, ps: seq<Patch>, env: Env) {
    var patched := ApplyAll(d, ps);
    && ByPlan(d, it.number, env, ps) && OnExisting(d, ps) && |ps| <= 3
    && it.applied == CountFine(ps) && it.passed == env.passes(it.number)
    && it.confidence == (if it.passed then env.confidence(it.number) else env.confidence(it.number) * 0.7)
    && (it.rolledBack <==> !it.passed && it.applied > 0 && it.confidence < 0.55
                           && LastFine(ps) > 0 && env.copies(ps[LastFine(ps) - 1].id))
    && d' == if it.rolledBack then RollbackLast(patched, env.copies) else patched
  }

  /** An iteration that reports a rollback leaves the file it patched last as it was just before that
      patch, and every other file as patched; one that reports none leaves all its patches in place. */
  lemma RolledBackRestores(d: Disk, d': Disk, it: Iteration, ps: seq<Patch>, env: Env)
    requires Iterated(d, d', it, ps, env)
    ensures it.rolledBack ==>
              var k := LastFine(ps) - 1;
              && 0 <= k < |ps| && ps[k].path in ApplyAll(d, ps[..k]).files
              && d'.files == ApplyAll(d, ps).files[ps[k].path := ApplyAll(d, ps[..k]).files[ps[k].path]]
    ensures !it.rolledBack ==> d'.files == ApplyAll(d, ps).files
    ensures it.rolledBack ==> !it.passed
  {
    if it.rolledBack { LastPatchUndone(d, ps, env.copies); }
  }

  method RunIteration(ex: PatchExecutor, number: nat, env: Env) returns (it: Iteration, ghost ps: seq<Patch>)
    requires IdsInOrder(ex.View(), env)
    modifies ex
    ensures IdsInOrder(ex.View(), env) && it.number == number
    ensures Iterated(old(ex.View()), ex.View(), it, ps, env)
  {
    hide OnExisting, ApplyAll, LastUndoable, CountFine, Patches.RollbackLast;
    var confidence := env.confidence(number);
    var applied;
    applied, ps := ApplyHeuristicPatches(ex, number, env);
    var passed := env.passes(number);
    var rolledBack := false;
    if !passed {
      confidence := confidence * 0.7;
      if applied > 0 && confidence < ROLLBACK_THRESHOLD {
        LastPatchUndone(old(ex.View()), ps, env.copies);
        rolledBack := ex.RollbackLast(env.copies);
      }
    }
    it := Iteration(number, applied, passed, rolledBack, confidence);
  }

  /** The whole loop: iterations are numbered from 1, each but the last failed its test, it stops at the
      first success or after `maxRetries`, and every iteration takes the disk one step further. */
  method Run(files: map<Path, Content>, maxRetries: nat, env: Env)
    returns (success: bool, iterations: seq<Iteration>, ghost disks: seq<Disk>, ghost patches: seq<seq<Patch>>)
    requires forall i: nat, j: nat | i != j :: env.ids(i) != env.ids(j)
    ensures |iterations| <= maxRetries && |disks| == |iterations| + 1 && |patches| == |iterations|
    ensures disks[0] == Disk(files, map[], [])
    ensures forall i | 0 <= i < |iterations| ::
              iterations[i].number == i + 1 && Iterated(disks[i], disks[i + 1], iterations[i], patches[i], env)
    ensures forall i | 0 <= i < |iterations| - 1 :: !iterations[i].passed
    ensures success <==> |iterations| > 0 && iterations[|iterations| - 1].passed
    ensures !success ==> |iterations| == maxRetries
  {
    hide Iterated;
    var ex := new PatchExecutor(files);
    success, iterations, disks, patches := false, [], [ex.View()], [];
    for n := 0 to maxRetries
      invariant fresh(ex) && IdsInOrder(ex.View(), env)
      invariant |iterations| == n && |disks| == n + 1 && disks[n] == ex.View() && |patches| == n
          && disks[0] == Start(files)
      invariant forall i | 0 <= i < n ::
        && iterations[i].number == i + 1 && !iterations[i].passed
        && Iterated(disks[i], disks[i + 1], iterations[i], patches[i], env)
    {
      var it, ps := RunIteration(ex, n + 1, env);
      iterations, disks, patches := iterations + [it], disks + [ex.View()], patches + [ps];
      if it.passed { return true, iterations, disks, patches; }
    }
  }
}

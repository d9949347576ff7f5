/** The `uninstall` command: it validates the whole request up front, then
    removes the working tree of each target subdataset, nested ones first,
    leaving an empty mount point behind. */
module UninstallCommand {
  import opened Paths
  import opened Sorting
  import opened Datasets

  /** One entry of the command's result list: a file whose content was dropped,
      or a dataset that was uninstalled. */
  datatype Item = DroppedFile(path: Path) | UninstalledDataset(path: Path)

  /** One complaint the validation logs before it raises. */
  datatype Violation =
    | FilesOnly(ds: Path)  // the request names content of the dataset, not the dataset itself
    | TopLevel(ds: Path)   // the dataset has no superdataset

  datatype Error =
    | RefuseCurrentDir                                   // a target is the working directory or above it
    | InappropriateArguments(violations: set<Violation>) // raised once, after all targets were checked
    | DirtyDatasets(datasets: set<Path>)                 // refused by the `fail` dirty-tree policy
    | DropFailed(ds: Path)                               // the content drop refused
    | PresentSubdatasets(ds: Path)                       // "forgot --recursive?"

  datatype Result<T> = Ok(value: T) | Err(error: Error)

  /** The world after an operation, with what the operation returned or raised. */
  datatype Run = Run(after: State, result: Result<seq<Item>>)

  /** The `dataset` argument: absent, a `Dataset` instance, or a path string. */
  datatype DatasetArg = NoDataset | DatasetObject(path: Path) | DatasetString(path: Path)

  /** What `Interface._prep` returns: the requested content paths per dataset,
      and the requested paths that are not installed. */
  datatype Prepared = Prepared(contentByDs: map<Path, set<Path>>, unavailable: seq<Path>)

  /** `Interface._prep(path, dataset, recursive)`, whose path resolution is not modelled. */
  type Prep = (seq<Path>, DatasetArg, bool) -> Prepared

  /** The answer `_drop_files` gives for each dataset. */
  type Drop = Path -> DropReport

  /** Python's truth value of `dataset`: an instance is always true, a string
      when it is not empty. */
  predicate IsGiven(dataset: DatasetArg)
  {
    dataset.DatasetObject? || (dataset.DatasetString? && dataset.path != "")
  }

  /** The paths handed to `_prep`: explicit paths win; without them a given
      dataset stands for itself. */
  function TargetPaths(path: seq<Path>, dataset: DatasetArg): (r: seq<Path>)
    ensures path != [] ==> r == path
    ensures path == [] && IsGiven(dataset) ==> r == [dataset.path]
    ensures r == [] <==> path == [] && !IsGiven(dataset)
  {
    if IsGiven(dataset) && path == [] then [dataset.path] else path
  }

  /** `content_by_ds` for a call. */
  function Resolve(path: seq<Path>, dataset: DatasetArg, recursive: bool, prep: Prep): map<Path, set<Path>>
  {
    prep(TargetPaths(path, dataset), dataset, recursive).contentByDs
  }

  /** The drop's report as result entries, in its order. */
  function DroppedItems(files: seq<Path>): (r: seq<Item>)
    ensures |r| == |files|
    ensures forall i :: 0 <= i < |files| ==> r[i] == DroppedFile(files[i])
  {
    seq(|files|, i requires 0 <= i < |files| => DroppedFile(files[i]))
  }

  /** The datasets a result list reports as uninstalled, in order. */
  function Uninstalled(items: seq<Item>): seq<Path>
  {
    if items == [] then []
    else (if items[0].UninstalledDataset? then [items[0].path] else []) + Uninstalled(items[1..])
  }

  lemma {:induction false} UninstalledAppend(a: seq<Item>, b: seq<Item>)
    ensures Uninstalled(a + b) == Uninstalled(a) + Uninstalled(b)
  {
    if a == [] {
      assert a + b == b;
    } else {
      assert (a + b)[1..] == a[1..] + b;
      UninstalledAppend(a[1..], b);
    }
  }

  lemma {:induction false} NoDatasetAmongDrops(files: seq<Path>)
    ensures Uninstalled(DroppedItems(files)) == []
  {
    if files != [] {
      assert DroppedItems(files)[1..] == DroppedItems(files[1..]);
      NoDatasetAmongDrops(files[1..]);
    }
  }

  /** The complaints the validation loop logs for the datasets in `among`. */
  function Violations(s: State, contentByDs: map<Path, set<Path>>, among: set<Path>): (r: set<Violation>)
    ensures forall k :: FilesOnly(k) in r <==> k in among && k in contentByDs && k !in contentByDs[k]
    ensures forall k :: TopLevel(k) in r <==> k in among && k in contentByDs && !HasSuperdataset(s, k)
  {
    (set k | k in among && k in contentByDs && k !in contentByDs[k] :: FilesOnly(k))
    + (set k | k in among && k in contentByDs && !HasSuperdataset(s, k) :: TopLevel(k))
  }

  /** The validation finds nothing to complain about exactly when every checked
      target is requested as a whole and has a superdataset. */
  lemma ViolationsEmpty(s: State, contentByDs: map<Path, set<Path>>, among: set<Path>)
    ensures Violations(s, contentByDs, among) == {} <==>
      forall k :: k in among && k in contentByDs ==> k in contentByDs[k] && HasSuperdataset(s, k)
  {
    var r := Violations(s, contentByDs, among);
    if r != {} {
      var v :| v in r;
      match v
      case FilesOnly(d) =>
      case TopLevel(d) =>
    }
  }

  /** Checking one more dataset adds exactly its own complaints. */
  lemma ViolationsGrow(s: State, contentByDs: map<Path, set<Path>>, among: set<Path>, k: Path)
    requires k in contentByDs
    ensures Violations(s, contentByDs, among + {k})
         == Violations(s, contentByDs, among)
            + (if k !in contentByDs[k] then {FilesOnly(k)} else {})
            + (if !HasSuperdataset(s, k) then {TopLevel(k)} else {})
  {
    var a := Violations(s, contentByDs, among + {k});
    var b := Violations(s, contentByDs, among)
            + (if k !in contentByDs[k] then {FilesOnly(k)} else {})
            + (if !HasSuperdataset(s, k) then {TopLevel(k)} else {});
    forall v
      ensures v in a <==> v in b
    {
      match v
      case FilesOnly(d) =>
      case TopLevel(d) =>
    }
  }

  /** `_uninstall_dataset(ds, check, has_super)` on a snapshot of the world:
      the new world and the results, or the error raised. */
  function UninstallDatasetSpec(s: State, p: Path, check: bool, hasSuper: bool, drop: Drop): (run: Run)
    requires WellFormed(s)
    ensures WellFormed(run.after)
    ensures run.after.subdatasets == s.subdatasets
    ensures run.after.installed <= s.installed && run.after.open <= s.open
    ensures run.after.cfgLoaded <= s.cfgLoaded
    ensures run.result.Err? ==> run.result.error.DropFailed? || run.result.error.PresentSubdatasets?
    // a refused drop raises before anything else happens
    ensures check && p in s.installed && drop(p).DropRefused? ==> run == Run(s, Err(DropFailed(p)))
    // present subdatasets raise after the drop and before anything is removed
    ensures !(check && p in s.installed && drop(p).DropRefused?) && Fulfilled(s, p) != {} ==>
      run.result == Err(PresentSubdatasets(p))
      && run.after == (if check && p in s.installed then AfterDrop(s, p, drop(p)) else s)
    ensures run.result.Ok? <==> !(check && p in s.installed && drop(p).DropRefused?) && Fulfilled(s, p) == {}
    // the drop's results come first and the dataset itself last
    ensures run.result.Ok? ==>
      run.result.value == (if check && p in s.installed then DroppedItems(drop(p).files) else []) + [UninstalledDataset(p)]
    ensures run.result.Ok? ==> p !in run.after.installed && p !in run.after.open && p !in run.after.cfgLoaded
    // with a superdataset the mount point is there afterwards, and empty if the dataset was installed
    ensures run.result.Ok? && hasSuper ==> p in run.after.disk
    ensures run.result.Ok? && !hasSuper && p in s.installed ==> p !in run.after.disk
    ensures run.result.Ok? && p in s.installed ==> forall x :: IsStrictlyUnder(x, p) ==> x !in run.after.disk
    // nothing outside the dataset's directory changes on disk
    ensures forall x :: !IsUnder(x, p) ==>
      (x in run.after.disk <==> x in s.disk) && (x in run.after.installed <==> x in s.installed)
    // no other dataset's content, uncommitted changes, handles or configuration are touched
    ensures forall x :: !IsUnder(x, p) ==>
      (x in run.after.hasContent <==> x in s.hasContent) && (x in run.after.dirty <==> x in s.dirty)
    ensures forall x :: x != p ==>
      (x in run.after.open <==> x in s.open) && (x in run.after.cfgLoaded <==> x in s.cfgLoaded)
  {
    var dropping := check && p in s.installed;
    if dropping && drop(p).DropRefused? then Run(s, Err(DropFailed(p)))
    else
      var s1 := if dropping then AfterDrop(s, p, drop(p)) else s;
      var dropped := if dropping then DroppedItems(drop(p).files) else [];
      assert Fulfilled(s1, p) == Fulfilled(s, p);
      if Fulfilled(s1, p) != {} then Run(s1, Err(PresentSubdatasets(p)))
      else
        var s2 := s1.(open := s1.open - {p});
        var s3 := if p in s2.installed then AfterRmTree(s2, p) else s2;
        var s4 := if hasSuper && p !in s3.disk then s3.(disk := s3.disk + {p}) else s3;
        Run(s4.(cfgLoaded := s4.cfgLoaded - {p}), Ok(dropped + [UninstalledDataset(p)]))
  }

  /** `_uninstall_dataset(ds, check, has_super)`. */
  method UninstallDataset(w: World, p: Path, check: bool, hasSuper: bool, drop: Drop)
    returns (r: Result<seq<Item>>)
    requires w.Valid()
    modifies w
    ensures w.Valid()
    ensures var run := UninstallDatasetSpec(old(w.Snapshot()), p, check, hasSuper, drop);
      w.Snapshot() == run.after && r == run.result
  {
    var results: seq<Item> := [];
    if check && p in w.installed {
      var report := w.DropFiles(p, drop);
      if report.DropRefused? {
        return Err(DropFailed(p));
      }
      results := results + DroppedItems(report.files);
    }
    if Fulfilled(w.Snapshot(), p) != {} {
      return Err(PresentSubdatasets(p));
    }
    w.Close(p);
    if p in w.installed {
      w.RmTree(p);
    }
    if hasSuper && p !in w.disk {
      w.MakeDirs(p);
    }
    w.InvalidateConfig(p);
    assert results == if check && p in old(w.installed) then DroppedItems(old(drop(p)).files) else [];
    results := results + [UninstalledDataset(p)];
    return Ok(results);
  }

  /** Puts `results` in front of what a later run returns; an error stays as it is. */
  function Prefixed(results: seq<Item>, run: Run): Run
  {
    if run.result.Ok? then Run(run.after, Ok(results + run.result.value)) else run
  }

  lemma PrefixedTwice(a: seq<Item>, b: seq<Item>, run: Run)
    ensures Prefixed(a, Prefixed(b, run)) == Prefixed(a + b, run)
  {
    if run.result.Ok? {
      assert a + (b + run.result.value) == (a + b) + run.result.value;
    }
  }

  /** The removal loop of `__call__` over `order`: each dataset is uninstalled
      with its superdataset taken as confirmed, results are concatenated, and
      the first error ends the loop without undoing earlier removals. */
  function RemoveAll(s: State, order: seq<Path>, check: bool, drop: Drop): (run: Run)
    requires WellFormed(s)
    ensures WellFormed(run.after)
    ensures run.after.subdatasets == s.subdatasets
    ensures run.after.installed <= s.installed && run.after.open <= s.open
    ensures run.after.cfgLoaded <= s.cfgLoaded
    ensures run.result.Err? ==> run.result.error.DropFailed? || run.result.error.PresentSubdatasets?
    decreases |order|
  {
    if order == [] then Run(s, Ok([]))
    else
      var step := UninstallDatasetSpec(s, order[0], check, true, drop);
      if step.result.Err? then step
      else Prefixed(step.result.value, RemoveAll(step.after, order[1..], check, drop))
  }

  /** `Uninstall.__call__(path, dataset, recursive, check, if_dirty)` on a
      snapshot of the world, with `cwd` the working directory. */
  ghost function CallSpec(s: State, cwd: Path, path: seq<Path>, dataset: DatasetArg, recursive: bool,
                          check: bool, ifDirty: IfDirty, prep: Prep, drop: Drop): (run: Run)
    requires WellFormed(s)
    ensures WellFormed(run.after)
    // standing in or under a target refuses before anything else is looked at
    ensures var content := Resolve(path, dataset, recursive, prep);
      PathIsUnder(cwd, content.Keys) ==> run == Run(s, Err(RefuseCurrentDir))
    // every complaint about every target is reported together, and nothing is touched
    ensures var content := Resolve(path, dataset, recursive, prep);
      !PathIsUnder(cwd, content.Keys) && Violations(s, content, content.Keys) != {} ==>
      run == Run(s, Err(InappropriateArguments(Violations(s, content, content.Keys))))
    // a validation or dirty-tree refusal leaves the world as it was
    ensures run.result.Err? && !run.result.error.DropFailed? && !run.result.error.PresentSubdatasets? ==>
      run.after == s
    // removal only starts for a request in which every target is a whole subdataset
    ensures var content := Resolve(path, dataset, recursive, prep);
      run.result.Ok? ==>
        !PathIsUnder(cwd, content.Keys) && forall k :: k in content ==> k in content[k] && HasSuperdataset(s, k)
    // under `fail`, a dirty target stops a valid request before anything changes
    ensures var content := Resolve(path, dataset, recursive, prep);
      !PathIsUnder(cwd, content.Keys) && Violations(s, content, content.Keys) == {}
      && ifDirty == Fail && content.Keys * s.dirty != {} ==>
        run == Run(s, Err(DirtyDatasets(content.Keys * s.dirty)))
    // conversely, such a request that the dirty-tree policy accepts reaches the removal loop
    ensures var content := Resolve(path, dataset, recursive, prep);
      !PathIsUnder(cwd, content.Keys) && DirtyRefusal(s, content.Keys, ifDirty) == {}
      && (forall k :: k in content ==> k in content[k] && HasSuperdataset(s, k)) ==>
        run == RemoveAll(AfterHandleDirty(s, content.Keys, ifDirty), DescendingListing(content.Keys), check, drop)
  {
    var content := Resolve(path, dataset, recursive, prep);
    ViolationsEmpty(s, content, content.Keys);
    var violations := Violations(s, content, content.Keys);
    var refused := DirtyRefusal(s, content.Keys, ifDirty);
    if PathIsUnder(cwd, content.Keys) then Run(s, Err(RefuseCurrentDir))
    else if violations != {} then Run(s, Err(InappropriateArguments(violations)))
    else if refused != {} then Run(s, Err(DirtyDatasets(refused)))
    else
      assert forall k :: k in content ==> FilesOnly(k) !in violations && TopLevel(k) !in violations;
      RemoveAll(AfterHandleDirty(s, content.Keys, ifDirty), DescendingListing(content.Keys), check, drop)
  }

  /** The validation loop of `__call__`: every target is checked and every
      complaint recorded, and `args_ok` stays true only if there is none.
      `visited` lists the targets in the order the loop met them, which is the
      dictionary's own order. */
  method CheckTargets(w: World, contentByDs: map<Path, set<Path>>)
    returns (argsOk: bool, violations: set<Violation>, visited: seq<Path>)
    ensures violations == Violations(w.Snapshot(), contentByDs, contentByDs.Keys)
    ensures argsOk <==> violations == {}
    ensures Distinct(visited) && forall y :: y in visited <==> y in contentByDs
  {
    argsOk := true;
    violations := {};
    visited := [];
    var remaining := contentByDs.Keys;
    while remaining != {}
      invariant remaining <= contentByDs.Keys
      invariant Distinct(visited)
      invariant forall y :: y in visited <==> y in contentByDs && y !in remaining
      invariant violations == Violations(w.Snapshot(), contentByDs, contentByDs.Keys - remaining)
      invariant argsOk == (violations == {})
      decreases remaining
    {
      var dsPath :| dsPath in remaining;
      var paths := contentByDs[dsPath];
      ViolationsGrow(w.Snapshot(), contentByDs, contentByDs.Keys - remaining, dsPath);
      assert contentByDs.Keys - (remaining - {dsPath}) == (contentByDs.Keys - remaining) + {dsPath};
      if dsPath !in paths {
        violations := violations + {FilesOnly(dsPath)};
        argsOk := false;
      }
      if !HasSuperdataset(w.Snapshot(), dsPath) {
        violations := violations + {TopLevel(dsPath)};
        argsOk := false;
      }
      visited := visited + [dsPath];
      remaining := remaining - {dsPath};
    }
    assert contentByDs.Keys - remaining == contentByDs.Keys;
  }

  /** The removal loop of `__call__`: `_uninstall_dataset` on each dataset of
      `order` with `has_super=True`, extending the results; an error ends it. */
  method RemoveInOrder(w: World, order: seq<Path>, check: bool, drop: Drop)
    returns (r: Result<seq<Item>>)
    requires w.Valid()
    modifies w
    ensures w.Valid()
    ensures var run := RemoveAll(old(w.Snapshot()), order, check, drop);
      w.Snapshot() == run.after && r == run.result
  {
    ghost var s0 := w.Snapshot();
    var results: seq<Item> := [];
    var i := 0;
    assert order[i..] == order;
    assert Prefixed(results, RemoveAll(s0, order, check, drop)) == RemoveAll(s0, order, check, drop) by {
      var run := RemoveAll(s0, order, check, drop);
      if run.result.Ok? { assert results + run.result.value == run.result.value; }
    }
    while i < |order|
      invariant 0 <= i <= |order|
      invariant w.Valid()
      invariant RemoveAll(s0, order, check, drop)
             == Prefixed(results, RemoveAll(w.Snapshot(), order[i..], check, drop))
    {
      assert order[i..][0] == order[i] && order[i..][1..] == order[i + 1..];
      var res := UninstallDataset(w, order[i], check, true, drop);
      if res.Err? {
        return Err(res.error);
      }
      PrefixedTwice(results, res.value, RemoveAll(w.Snapshot(), order[i + 1..], check, drop));
      results := results + res.value;
      i := i + 1;
    }
    assert order[i..] == [];
    assert results + [] == results;
    return Ok(results);
  }

  /** `Uninstall.__call__(path, dataset, recursive, check, if_dirty)`. */
  method Uninstall(w: World, prep: Prep, drop: Drop, path: seq<Path> := [], dataset: DatasetArg := NoDataset,
                   recursive: bool := false, check: bool := true, ifDirty: IfDirty := SaveBefore)
    returns (r: Result<seq<Item>>)
    requires w.Valid()
    modifies w
    ensures w.Valid()
    ensures var run := CallSpec(old(w.Snapshot()), w.cwd, path, dataset, recursive, check, ifDirty, prep, drop);
      w.Snapshot() == run.after && r == run.result
  {
    var target := TargetPaths(path, dataset);
    var prepared := prep(target, dataset, recursive);
    var contentByDs := prepared.contentByDs;
    if PathIsUnder(w.cwd, contentByDs.Keys) {
      return Err(RefuseCurrentDir);
    }
    var argsOk, violations, visited := CheckTargets(w, contentByDs);
    if !argsOk {
      return Err(InappropriateArguments(violations));
    }
    var refused := w.HandleDirtyDatasets(contentByDs.Keys, ifDirty);
    if refused != {} {
      return Err(DirtyDatasets(refused));
    }
    // bottom-up: contained datasets before their containers
    var order := SortDescending(visited);
    SortedListingIsCanonical(visited, contentByDs.Keys);
    r := RemoveInOrder(w, order, check, drop);
  }

  /** The removal loop reports each dataset of `order` once, in that order. */
  lemma {:induction false} RemoveAllReportsInOrder(s: State, order: seq<Path>, check: bool, drop: Drop)
    requires WellFormed(s)
    ensures var run := RemoveAll(s, order, check, drop);
      run.result.Ok? ==> Uninstalled(run.result.value) == order
    decreases |order|
  {
    if order != [] {
      var p := order[0];
      var step := UninstallDatasetSpec(s, p, check, true, drop);
      if step.result.Ok? {
        var rest := RemoveAll(step.after, order[1..], check, drop);
        RemoveAllReportsInOrder(step.after, order[1..], check, drop);
        if rest.result.Ok? {
          var pre := if check && p in s.installed then DroppedItems(drop(p).files) else [];
          if check && p in s.installed {
            NoDatasetAmongDrops(drop(p).files);
          }
          UninstalledAppend(pre, [UninstalledDataset(p)]);
          assert Uninstalled([UninstalledDataset(p)]) == [p];
          UninstalledAppend(step.result.value, rest.result.value);
          assert order == [p] + order[1..];
        }
      }
    }
  }

  /** Whatever the outcome, a path beneath none of the datasets in `order`
      neither appears nor disappears, and its installed state, local content,
      uncommitted changes, open handles and cached configuration are kept. */
  lemma {:induction false} RemoveAllFrame(s: State, order: seq<Path>, check: bool, drop: Drop, x: Path)
    requires WellFormed(s)
    requires forall i :: 0 <= i < |order| ==> !IsUnder(x, order[i])
    ensures var run := RemoveAll(s, order, check, drop);
      && (x in run.after.disk <==> x in s.disk) && (x in run.after.installed <==> x in s.installed)
      && (x in run.after.hasContent <==> x in s.hasContent) && (x in run.after.dirty <==> x in s.dirty)
      && (x in run.after.open <==> x in s.open) && (x in run.after.cfgLoaded <==> x in s.cfgLoaded)
    decreases |order|
  {
    if order != [] {
      var step := UninstallDatasetSpec(s, order[0], check, true, drop);
      if step.result.Ok? {
        RemoveAllFrame(step.after, order[1..], check, drop, x);
      }
    }
  }

  /** After a successful loop no dataset of `order` is installed, has open
      handles or a cached configuration. */
  lemma {:induction false} RemoveAllUninstalls(s: State, order: seq<Path>, check: bool, drop: Drop, i: nat)
    requires WellFormed(s)
    requires i < |order|
    ensures var run := RemoveAll(s, order, check, drop);
      run.result.Ok? ==>
        order[i] !in run.after.installed && order[i] !in run.after.open && order[i] !in run.after.cfgLoaded
    decreases |order|
  {
    var step := UninstallDatasetSpec(s, order[0], check, true, drop);
    if step.result.Ok? && i > 0 {
      RemoveAllUninstalls(step.after, order[1..], check, drop, i - 1);
    }
  }

  /** After a successful loop a dataset of `order` that lies beneath no other
      one still has its mount point on disk. */
  lemma {:induction false} RemoveAllKeepsMountPoint(s: State, order: seq<Path>, check: bool, drop: Drop, i: nat)
    requires WellFormed(s)
    requires i < |order|
    requires forall j :: 0 <= j < |order| && j != i ==> !IsUnder(order[i], order[j])
    ensures var run := RemoveAll(s, order, check, drop);
      run.result.Ok? ==> order[i] in run.after.disk
    decreases |order|
  {
    var step := UninstallDatasetSpec(s, order[0], check, true, drop);
    if step.result.Ok? {
      if i == 0 {
        RemoveAllFrame(step.after, order[1..], check, drop, order[0]);
      } else {
        RemoveAllKeepsMountPoint(step.after, order[1..], check, drop, i - 1);
      }
    }
  }

  /** A successful call uninstalls exactly the target datasets, from the
      largest path to the smallest, so every nested dataset before the
      dataset that contains it. */
  lemma CallUninstallsBottomUp(s: State, cwd: Path, path: seq<Path>, dataset: DatasetArg, recursive: bool,
                               check: bool, ifDirty: IfDirty, prep: Prep, drop: Drop)
    requires WellFormed(s)
    ensures var run := CallSpec(s, cwd, path, dataset, recursive, check, ifDirty, prep, drop);
      var keys := Resolve(path, dataset, recursive, prep).Keys;
      run.result.Ok? ==>
        var done := Uninstalled(run.result.value);
        && StrictlyDescending(done)
        && (forall k :: k in done <==> k in keys)
        && (forall i, j :: 0 <= i < |done| && 0 <= j < |done| && IsStrictlyUnder(done[i], done[j]) ==> i < j)
  {
    var run := CallSpec(s, cwd, path, dataset, recursive, check, ifDirty, prep, drop);
    var keys := Resolve(path, dataset, recursive, prep).Keys;
    if run.result.Ok? {
      var s1 := AfterHandleDirty(s, keys, ifDirty);
      var order := DescendingListing(keys);
      assert run == RemoveAll(s1, order, check, drop);
      RemoveAllReportsInOrder(s1, order, check, drop);
      forall i, j | 0 <= i < |order| && 0 <= j < |order| && IsStrictlyUnder(order[i], order[j])
        ensures i < j
      {
        NestedBeforeContainer(order, i, j);
      }
    }
  }

  /** After a successful call no target dataset is installed, has open handles
      or a cached configuration. */
  lemma CallUninstallsTargets(s: State, cwd: Path, path: seq<Path>, dataset: DatasetArg, recursive: bool,
                              check: bool, ifDirty: IfDirty, prep: Prep, drop: Drop, k: Path)
    requires WellFormed(s)
    requires k in Resolve(path, dataset, recursive, prep)
    ensures var run := CallSpec(s, cwd, path, dataset, recursive, check, ifDirty, prep, drop);
      run.result.Ok? ==> k !in run.after.installed && k !in run.after.open && k !in run.after.cfgLoaded
  {
    var run := CallSpec(s, cwd, path, dataset, recursive, check, ifDirty, prep, drop);
    var keys := Resolve(path, dataset, recursive, prep).Keys;
    if run.result.Ok? {
      var s1 := AfterHandleDirty(s, keys, ifDirty);
      var order := DescendingListing(keys);
      assert run == RemoveAll(s1, order, check, drop);
      var i :| 0 <= i < |order| && order[i] == k;
      RemoveAllUninstalls(s1, order, check, drop, i);
    }
  }

  /** After a successful call every target that lies beneath no other target
      has an (empty) mount point on disk; a target inside another one goes
      with its container's tree. */
  lemma CallLeavesMountPoint(s: State, cwd: Path, path: seq<Path>, dataset: DatasetArg, recursive: bool,
                             check: bool, ifDirty: IfDirty, prep: Prep, drop: Drop, k: Path)
    requires WellFormed(s)
    requires k in Resolve(path, dataset, recursive, prep)
    requires forall k2 :: k2 in Resolve(path, dataset, recursive, prep) ==> !IsStrictlyUnder(k, k2)
    ensures var run := CallSpec(s, cwd, path, dataset, recursive, check, ifDirty, prep, drop);
      run.result.Ok? ==> k in run.after.disk
  {
    var run := CallSpec(s, cwd, path, dataset, recursive, check, ifDirty, prep, drop);
    var keys := Resolve(path, dataset, recursive, prep).Keys;
    if run.result.Ok? {
      var s1 := AfterHandleDirty(s, keys, ifDirty);
      var order := DescendingListing(keys);
      assert run == RemoveAll(s1, order, check, drop);
      var i :| 0 <= i < |order| && order[i] == k;
      forall j | 0 <= j < |order| && j != i
        ensures !IsUnder(order[i], order[j])
      {
        assert order[j] in keys;
        if i < j { StrLessIrreflexive(order[i]); } else { StrLessIrreflexive(order[j]); }
      }
      RemoveAllKeepsMountPoint(s1, order, check, drop, i);
    }
  }

  /** Whatever the outcome, even a failure halfway through the removals, a
      path beneath none of the targets neither appears nor disappears, and
      nothing else the command tracks about it changes either. */
  lemma CallFrame(s: State, cwd: Path, path: seq<Path>, dataset: DatasetArg, recursive: bool,
                  check: bool, ifDirty: IfDirty, prep: Prep, drop: Drop, x: Path)
    requires WellFormed(s)
    requires forall k :: k in Resolve(path, dataset, recursive, prep) ==> !IsUnder(x, k)
    ensures var run := CallSpec(s, cwd, path, dataset, recursive, check, ifDirty, prep, drop);
      && (x in run.after.disk <==> x in s.disk) && (x in run.after.installed <==> x in s.installed)
      && (x in run.after.hasContent <==> x in s.hasContent) && (x in run.after.dirty <==> x in s.dirty)
      && (x in run.after.open <==> x in s.open) && (x in run.after.cfgLoaded <==> x in s.cfgLoaded)
  {
    var run := CallSpec(s, cwd, path, dataset, recursive, check, ifDirty, prep, drop);
    var keys := Resolve(path, dataset, recursive, prep).Keys;
    if run.after != s {
      var s1 := AfterHandleDirty(s, keys, ifDirty);
      var order := DescendingListing(keys);
      assert run == RemoveAll(s1, order, check, drop);
      assert x !in keys by {
        if x in keys {
          assert IsUnder(x, x);
        }
      }
      RemoveAllFrame(s1, order, check, drop, x);
    }
  }
}

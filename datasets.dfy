/** The world the uninstall command acts on: which paths exist on disk, which
    datasets are installed, what the process has cached or open for them, and
    the collaborators the command calls (content drop, dirty-tree handling,
    `rmtree`, `os.makedirs`, `Dataset.close`). */
module Datasets {
  import opened Paths

  /** A snapshot of the world. */
  datatype State = State(
    disk: set<Path>,                    // paths that exist on disk
    installed: set<Path>,               // datasets whose repository is present (`is_installed()`)
    subdatasets: map<Path, set<Path>>,  // subdatasets each dataset registers
    hasContent: set<Path>,              // datasets with annexed file content present locally
    open: set<Path>,                    // datasets with open repository handles or processes
    cfgLoaded: set<Path>,               // datasets whose configuration is cached (`_cfg`)
    dirty: set<Path>)                   // datasets with uncommitted changes

  /** An installed repository lives in a directory that exists. */
  predicate WellFormed(s: State)
  {
    s.installed <= s.disk
  }

  /** `get_subdatasets(fulfilled=True)`: the registered subdatasets of an
      installed dataset that are installed themselves. */
  function Fulfilled(s: State, p: Path): (r: set<Path>)
    ensures r <= s.installed
    ensures p !in s.installed ==> r == {}
  {
    if p in s.installed && p in s.subdatasets then
      set q | q in s.subdatasets[p] && q in s.installed
    else
      {}
  }

  /** `get_superdataset(datalad_only=False, topmost=False)` finds a
      dataset: some installed repository lies strictly above `p`. */
  predicate HasSuperdataset(s: State, p: Path)
  {
    exists q :: q in s.installed && IsStrictlyUnder(p, q)
  }

  /** What `_drop_files(ds, curdir, check=True)` reports: the files whose
      content it dropped, or a refusal because a remote copy could not be
      confirmed. */
  datatype DropReport = Dropped(files: seq<Path>) | DropRefused

  /** A successful drop leaves the dataset without local annexed content;
      a refused one changes nothing. */
  function AfterDrop(s: State, p: Path, report: DropReport): (r: State)
    ensures report.DropRefused? ==> r == s
    ensures report.Dropped? ==> p !in r.hasContent && r.hasContent == s.hasContent - {p}
    ensures r.(hasContent := s.hasContent) == s
  {
    if report.Dropped? then s.(hasContent := s.hasContent - {p}) else s
  }

  /** `rmtree(p)`: `p` and everything beneath it is gone from disk, and with it
      every repository, annexed content and uncommitted change stored there. */
  function AfterRmTree(s: State, p: Path): (r: State)
    requires WellFormed(s)
    ensures WellFormed(r)
    ensures forall x :: x in r.disk <==> x in s.disk && !IsUnder(x, p)
    ensures forall x :: x in r.installed <==> x in s.installed && !IsUnder(x, p)
    ensures r.hasContent <= s.hasContent && r.dirty <= s.dirty
    ensures r.subdatasets == s.subdatasets && r.open == s.open && r.cfgLoaded == s.cfgLoaded
  {
    var disk := set x | x in s.disk && !IsUnder(x, p);
    var installed := set x | x in s.installed && !IsUnder(x, p);
    var hasContent := set x | x in s.hasContent && !IsUnder(x, p);
    var dirty := set x | x in s.dirty && !IsUnder(x, p);
    s.(disk := disk, installed := installed, hasContent := hasContent, dirty := dirty)
  }

  /** The `if_dirty` policy handed to `handle_dirty_datasets`. */
  datatype IfDirty = Fail | SaveBefore | Ignore

  /** The datasets `handle_dirty_datasets` refuses to go on with: under the
      `fail` policy, the dirty ones among the targets. */
  function DirtyRefusal(s: State, targets: set<Path>, mode: IfDirty): (r: set<Path>)
    ensures r <= targets
    ensures mode != Fail ==> r == {}
  {
    if mode == Fail then targets * s.dirty else {}
  }

  /** `handle_dirty_datasets` when it does not refuse: `save-before` saves the
      targets, so none of them is dirty any more. Nothing is removed. */
  function AfterHandleDirty(s: State, targets: set<Path>, mode: IfDirty): (r: State)
    ensures r.(dirty := s.dirty) == s
    ensures r.dirty <= s.dirty
    ensures mode == SaveBefore ==> forall k :: k in targets ==> k !in r.dirty
    ensures forall x :: x !in targets ==> (x in r.dirty <==> x in s.dirty)
    ensures mode != SaveBefore ==> r == s
  {
    if mode == SaveBefore then s.(dirty := s.dirty - targets) else s
  }

  /** The mutable world, as the command sees it through its collaborators. */
  class World {
    var disk: set<Path>
    var installed: set<Path>
    const subdatasets: map<Path, set<Path>>
    var hasContent: set<Path>
    var open: set<Path>
    var cfgLoaded: set<Path>
    var dirty: set<Path>
    /** The process's working directory. */
    const cwd: Path

    function Snapshot(): State
      reads this
    {
      State(disk, installed, subdatasets, hasContent, open, cfgLoaded, dirty)
    }

    ghost predicate Valid()
      reads this
    {
      WellFormed(Snapshot())
    }

    constructor (s: State, cwd: Path)
      requires WellFormed(s)
      ensures Valid() && Snapshot() == s && this.cwd == cwd
    {
      disk, installed, subdatasets := s.disk, s.installed, s.subdatasets;
      hasContent, open, cfgLoaded, dirty := s.hasContent, s.open, s.cfgLoaded, s.dirty;
      this.cwd := cwd;
    }

    /** `_drop_files(ds, curdir, check=True)`; `drop` gives the collaborator's
        answer for each dataset. */
    method DropFiles(p: Path, drop: Path -> DropReport) returns (report: DropReport)
      requires Valid()
      modifies this
      ensures Valid()
      ensures report == drop(p)
      ensures Snapshot() == AfterDrop(old(Snapshot()), p, report)
    {
      report := drop(p);
      if report.Dropped? {
        hasContent := hasContent - {p};
      }
    }

    /** `ds.close()`: releases the repository's handles and processes. */
    method Close(p: Path)
      requires Valid()
      modifies this
      ensures Valid()
      ensures Snapshot() == old(Snapshot()).(open := old(open) - {p})
    {
      open := open - {p};
    }

    /** `rmtree(p)`; like `shutil.rmtree`, it fails on a path that does not exist. */
    method RmTree(p: Path)
      requires Valid() && p in disk
      modifies this
      ensures Valid()
      ensures Snapshot() == AfterRmTree(old(Snapshot()), p)
    {
      var s := AfterRmTree(Snapshot(), p);
      disk, installed, hasContent, dirty := s.disk, s.installed, s.hasContent, s.dirty;
    }

    /** `os.makedirs(p)`; it fails on a path that already exists. */
    method MakeDirs(p: Path)
      requires Valid() && p !in disk
      modifies this
      ensures Valid()
      ensures Snapshot() == old(Snapshot()).(disk := old(disk) + {p})
    {
      disk := disk + {p};
    }

    /** `ds._cfg = None`: the cached configuration is dropped. */
    method InvalidateConfig(p: Path)
      requires Valid()
      modifies this
      ensures Valid()
      ensures Snapshot() == old(Snapshot()).(cfgLoaded := old(cfgLoaded) - {p})
    {
      cfgLoaded := cfgLoaded - {p};
    }

    /** `handle_dirty_datasets(targets, mode)`: returns the datasets it refuses
        on, and otherwise applies the policy. It never removes a dataset. */
    method HandleDirtyDatasets(targets: set<Path>, mode: IfDirty) returns (refused: set<Path>)
      requires Valid()
      modifies this
      ensures Valid()
      ensures refused == DirtyRefusal(old(Snapshot()), targets, mode)
      ensures Snapshot() == if refused == {} then AfterHandleDirty(old(Snapshot()), targets, mode)
                            else old(Snapshot())
      ensures disk == old(disk) && installed == old(installed)
    {
      refused := if mode == Fail then targets * dirty else {};
      if refused == {} && mode == SaveBefore {
        dirty := dirty - targets;
      }
    }
  }
}

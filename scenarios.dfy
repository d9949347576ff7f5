/** The uninstall command's outcome on a small hierarchy: a superdataset
    `/root` with the subdataset `/root/sub1`. `SingleListing`,
    `RemoveOne` and `WholeSubdatasetPasses` are general lemmas used on the way. */
module UninstallScenarios {
  import opened Paths
  import opened Sorting
  import opened Datasets
  import opened UninstallCommand

  /** `/root` with `/root/sub1` installed; `sub1` holds one annexed file whose
      content is present, and the process has it open and configured. */
  function Hierarchy(): (s: State)
    ensures WellFormed(s)
  {
    State(disk := {"/root", "/root/sub1", "/root/sub1/file"},
          installed := {"/root", "/root/sub1"},
          subdatasets := map["/root" := {"/root/sub1"}],
          hasContent := {"/root/sub1"},
          open := {"/root/sub1"},
          cfgLoaded := {"/root/sub1"},
          dirty := {})
  }

  /** `_prep` resolving every request to the whole of `ds`. */
  function WholeDataset(ds: Path): Prep
  {
    (paths: seq<Path>, dataset: DatasetArg, recursive: bool) => Prepared(map[ds := {ds}], [])
  }

  /** A drop that confirms remote copies and drops `/root/sub1/file`. */
  function DropsFile(): Drop
  {
    (p: Path) => Dropped(["/root/sub1/file"])
  }

  /** A single target is visited alone. */
  lemma SingleListing(k: Path)
    ensures DescendingListing({k}) == [k]
  {
    DescendingUnique(DescendingListing({k}), [k]);
  }

  /** A removal loop over one dataset is that dataset's own uninstall. */
  lemma RemoveOne(s: State, p: Path, check: bool, drop: Drop)
    requires WellFormed(s)
    ensures RemoveAll(s, [p], check, drop) == UninstallDatasetSpec(s, p, check, true, drop)
  {
    var step := UninstallDatasetSpec(s, p, check, true, drop);
    assert [p][1..] == [];
    if step.result.Ok? {
      assert step.result.value + [] == step.result.value;
    }
  }

  /** A request for the whole of one subdataset, made from outside it, passes
      validation whenever the subdataset has a superdataset; with nothing
      dirty it goes straight to the removal loop. */
  lemma WholeSubdatasetPasses(s: State, cwd: Path, p: Path, path: seq<Path>, dataset: DatasetArg,
                              check: bool, drop: Drop)
    requires WellFormed(s) && s.dirty == {}
    requires !IsUnder(cwd, p) && HasSuperdataset(s, p)
    ensures CallSpec(s, cwd, path, dataset, false, check, SaveBefore, WholeDataset(p), drop)
         == RemoveAll(s, [p], check, drop)
  {
    var content := map[p := {p}];
    assert Resolve(path, dataset, false, WholeDataset(p)) == content;
    assert !PathIsUnder(cwd, content.Keys);
    assert Violations(s, content, content.Keys) == {} by {
      forall v | v in Violations(s, content, content.Keys)
        ensures false
      {
        match v
        case FilesOnly(d) =>
        case TopLevel(d) =>
      }
    }
    assert DirtyRefusal(s, content.Keys, SaveBefore) == {};
    assert AfterHandleDirty(s, content.Keys, SaveBefore) == s;
    assert content.Keys == {p};
    SingleListing(p);
    assert DescendingListing(content.Keys) == [p];
  }

  /** `/root/sub1` in `Hierarchy` lies under the superdataset `/root`. */
  lemma Sub1HasSuperdataset(s: State)
    requires "/root" in s.installed
    ensures HasSuperdataset(s, "/root/sub1")
  {
    assert "/root/sub1"[..|"/root"|] == "/root";
    assert IsStrictlyUnder("/root/sub1", "/root");
  }

  /** `_uninstall_dataset` on `/root/sub1` of `Hierarchy`. */
  lemma CleanSubdatasetStep()
    ensures var step := UninstallDatasetSpec(Hierarchy(), "/root/sub1", true, true, DropsFile());
      && step.result == Ok([DroppedFile("/root/sub1/file"), UninstalledDataset("/root/sub1")])
      && "/root" in step.after.disk && "/root/sub1" in step.after.disk && "/root/sub1/file" !in step.after.disk
      && step.after.installed == {"/root"}
      && step.after.hasContent == {} && step.after.open == {} && step.after.cfgLoaded == {}
  {
    var s := Hierarchy();
    var p: Path := "/root/sub1";
    var step := UninstallDatasetSpec(s, p, true, true, DropsFile());
    assert Fulfilled(s, p) == {};
    assert DropsFile()(p) == Dropped(["/root/sub1/file"]);
    assert DroppedItems(["/root/sub1/file"]) == [DroppedFile("/root/sub1/file")];
    assert step.result.Ok?;
    var items := [DroppedFile("/root/sub1/file"), UninstalledDataset(p)];
    assert items == [DroppedFile("/root/sub1/file")] + [UninstalledDataset(p)];
    assert "/root/sub1/file"[..|p|] == p;
    assert IsStrictlyUnder("/root/sub1/file", p);
    assert !IsUnder("/root", p);
    assert step.after.installed == {"/root"} by {
      forall x | x in step.after.installed
        ensures x == "/root"
      {
        if x != p {
          assert !IsUnder(x, p);
        }
      }
    }
  }

  /** Uninstalling `/root/sub1` from `/root` drops its content, removes its
      tree, recreates an empty mount point and reports the dropped file and
      then the dataset. */
  lemma UninstallCleanSubdataset()
    ensures var run := CallSpec(Hierarchy(), "/root", ["/root/sub1"], NoDataset, false, true, SaveBefore,
                                WholeDataset("/root/sub1"), DropsFile());
      && run.result == Ok([DroppedFile("/root/sub1/file"), UninstalledDataset("/root/sub1")])
      && "/root" in run.after.disk && "/root/sub1" in run.after.disk && "/root/sub1/file" !in run.after.disk
      && run.after.installed == {"/root"}
      && run.after.hasContent == {} && run.after.open == {} && run.after.cfgLoaded == {}
  {
    var p: Path := "/root/sub1";
    assert !IsUnder("/root", p);
    Sub1HasSuperdataset(Hierarchy());
    WholeSubdatasetPasses(Hierarchy(), "/root", p, [p], NoDataset, true, DropsFile());
    RemoveOne(Hierarchy(), p, true, DropsFile());
    CleanSubdatasetStep();
  }

  /** Asking for the top-level `/root` fails validation and changes nothing. */
  lemma RefuseTopLevel()
    ensures var run := CallSpec(Hierarchy(), "/home", [], DatasetString("/root"), false, true, SaveBefore,
                                WholeDataset("/root"), DropsFile());
      run == Run(Hierarchy(), Err(InappropriateArguments({TopLevel("/root")})))
  {
    var s := Hierarchy();
    var content := map["/root" := {"/root"}];
    assert Resolve([], DatasetString("/root"), false, WholeDataset("/root")) == content;
    assert !IsUnder("/home", "/root") by {
      assert "/home"[1] != "/root"[1];
    }
    assert !PathIsUnder("/home", content.Keys);
    assert !HasSuperdataset(s, "/root");
    assert Violations(s, content, content.Keys) == {TopLevel("/root")} by {
      forall v | v in Violations(s, content, content.Keys)
        ensures v == TopLevel("/root")
      {
        match v
        case FilesOnly(d) =>
        case TopLevel(d) =>
      }
    }
  }

  /** `Hierarchy` with a further subdataset `/root/sub1/nested` installed. */
  function Nested(): (s: State)
    ensures WellFormed(s)
  {
    Hierarchy().(disk := Hierarchy().disk + {"/root/sub1/nested"},
                 installed := Hierarchy().installed + {"/root/sub1/nested"},
                 subdatasets := map["/root" := {"/root/sub1"}, "/root/sub1" := {"/root/sub1/nested"}])
  }

  /** With `/root/sub1/nested` installed and no recursion, the call gets past
      validation; `_uninstall_dataset` then drops the content of `sub1` and
      raises before removing anything. */
  lemma PresentNestedSubdataset()
    ensures var run := CallSpec(Nested(), "/root", ["/root/sub1"], NoDataset, false, true, SaveBefore,
                                WholeDataset("/root/sub1"), DropsFile());
      && run.result == Err(PresentSubdatasets("/root/sub1"))
      && run.after == Nested().(hasContent := {})
  {
    var s := Nested();
    var p: Path := "/root/sub1";
    assert !IsUnder("/root", p);
    Sub1HasSuperdataset(s);
    WholeSubdatasetPasses(s, "/root", p, [p], NoDataset, true, DropsFile());
    RemoveOne(s, p, true, DropsFile());
    assert "/root/sub1/nested" in Fulfilled(s, p);
    assert DropsFile()(p).Dropped?;
  }
}

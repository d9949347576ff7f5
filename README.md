# Uninstalling subdatasets — a Dafny model

This project models datalad's `uninstall` command (`datalad/distribution/uninstall.py`).
The command removes the working tree of one or more installed subdatasets. It leaves
an empty mount point behind, so the superdataset can install them again later.

`Uninstall.__call__` runs in stages:

1. When a dataset is given without paths, the dataset's own path is the target.
2. `Interface._prep` resolves the targets to `content_by_ds`, a map from each
   dataset path to the content paths requested in it.
3. The call refuses if the working directory is a target or lies beneath one.
4. It checks every target dataset. A request for files only is a violation, and so
   is a top-level dataset. All violations are logged, then one error is raised.
5. It applies the dirty-tree policy.
6. It calls `_uninstall_dataset` on each target in reverse-sorted path order, so
   that nested datasets come before their containers.

`_uninstall_dataset` works through these steps:

1. It drops the dataset's file content, when `check` is set and the dataset is installed.
2. It refuses if an installed subdataset remains.
3. It closes the repository.
4. It deletes the tree, if the dataset is installed.
5. It recreates an empty mount point.
6. It forgets the cached configuration.
7. It returns the drop results, followed by the dataset itself.

The model works over an abstract world (`Datasets.State`, held by the class
`Datasets.World`). The world has:

- the set of paths that exist on disk;
- the set of installed datasets, which always exist on disk;
- the registered subdatasets of each dataset;
- the datasets with local annexed content, with open repository handles, with a
  cached configuration, and with uncommitted changes;
- the working directory.

Paths are strings, ordered as Python orders `str`. A path is *under* a directory
when it equals it, or when it starts with the directory followed by `/`.

The collaborators the command calls are modelled as operations on this world,
each with its own contract:

| collaborator | model |
|---|---|
| `Interface._prep` | a function parameter `prep` |
| `_drop_files` | a function parameter `drop` (the files dropped, or a refusal), plus `World.DropFiles` |
| `path_is_under` | `Paths.PathIsUnder` |
| `get_superdataset` | `Datasets.HasSuperdataset`: some installed repository lies strictly above |
| `get_subdatasets(fulfilled=True)` | `Datasets.Fulfilled` |
| `handle_dirty_datasets` | `World.HandleDirtyDatasets` |
| `rmtree`, `os.makedirs`, `ds.close()`, `ds._cfg = None` | methods of `World` |

The imperative source is modelled by imperative methods on `World`:

- `UninstallDataset` models `_uninstall_dataset`.
- `Uninstall` models `__call__`.
- `CheckTargets` and `RemoveInOrder` model the two loops of `__call__`.

Each method is proved equal to a specification function on snapshots of the world:
`UninstallDatasetSpec`, `Violations`, `RemoveAll` and `CallSpec`. The properties
the command promises are proved about those functions, as their `ensures` clauses
and as lemmas.

The module `UninstallScenarios` states the command's outcome on a small
hierarchy: a superdataset `/root` with the subdataset `/root/sub1`. Three of its
lemmas, `SingleListing`, `RemoveOne` and `WholeSubdatasetPasses`, are general;
the others are about that hierarchy.

Two details of the code the model follows:

- The tree is deleted only when `ds.is_installed()` holds (uninstall.py:53), not
  merely because the path exists.
- A target that still has an installed subdataset, when `--recursive` is not
  given, is not rejected during validation. `_uninstall_dataset` rejects it
  (uninstall.py:46-47), after its content may already have been dropped.

## Model

| member | source | states |
|---|---|---|
| `UninstallCommand.TargetPaths` | datalad/distribution/uninstall.py:117-119 | explicit paths are used as given; with none, a given dataset (an instance, or a non-empty string) stands for its own path; the target list is empty only when neither is given |
| `UninstallCommand.ViolationsEmpty` | datalad/distribution/uninstall.py:132-149 | the validation raises no complaint exactly when every checked target is requested as a whole and has a superdataset; either failing test on any target makes the call raise |
| `UninstallCommand.CheckTargets` | datalad/distribution/uninstall.py:132-147 | the loop visits every target once, records exactly the complaints `Violations` describes, and leaves `args_ok` true exactly when there are none |
| `UninstallCommand.UninstallDatasetSpec` | datalad/distribution/uninstall.py:38-61 | a refused drop raises before anything changes; present subdatasets raise after the drop and before any removal; on success the results are the drop results (only if `check` is set and the dataset is installed) followed by the dataset; the dataset is no longer installed, open or configured; with a superdataset its mount point exists, and is empty if the dataset was installed; nothing on disk outside its directory changes, no other dataset loses content or uncommitted changes, and no other dataset is closed or loses its configuration |
| `UninstallCommand.UninstallDataset` | datalad/distribution/uninstall.py:38-61 | the step-by-step procedure yields exactly the world and result of `UninstallDatasetSpec`; `os.makedirs` is only reached when the path is absent, so the mount point is never created twice |
| `UninstallCommand.RemoveAll` | datalad/distribution/uninstall.py:155-164 | the removal loop keeps the world well formed and never installs, opens or configures anything; only drop and present-subdataset errors can end it |
| `UninstallCommand.RemoveInOrder` | datalad/distribution/uninstall.py:155-166 | the loop's world and result equal `RemoveAll`: results are concatenated in processing order, and the first error is raised without undoing earlier removals |
| `UninstallCommand.CallSpec` | datalad/distribution/uninstall.py:110-166 | a working directory in or under a target refuses with the world unchanged; otherwise any complaint fails the whole call, reports all complaints together and leaves the world unchanged; under `fail` a dirty target stops a valid request with the world unchanged; a successful call had no complaint about any target, and conversely a request with no complaint, made from outside every target and accepted by the dirty-tree policy, goes on to the removal loop in descending order |
| `UninstallCommand.Uninstall` | datalad/distribution/uninstall.py:110-166 | with the source's defaults (no paths, no dataset, not recursive, `check` set, `save-before`), the command yields exactly the world and result of `CallSpec`: refuses where the caller stands, validates everything before any change, applies the dirty policy, then removes in reverse-sorted order |
| `UninstallCommand.RemoveAllReportsInOrder` | datalad/distribution/uninstall.py:159-164 | a successful removal loop reports each dataset of its order exactly once, in that order |
| `UninstallCommand.RemoveAllFrame` | datalad/distribution/uninstall.py:159-164 | whatever the outcome, a path under none of the processed datasets neither appears nor disappears, and keeps its installed state, local content, uncommitted changes, open handles and cached configuration |
| `UninstallCommand.RemoveAllUninstalls` | datalad/distribution/uninstall.py:159-164 | after a successful loop no processed dataset is installed, open or configured |
| `UninstallCommand.RemoveAllKeepsMountPoint` | datalad/distribution/uninstall.py:159-164 | after a successful loop, a processed dataset under no other processed dataset still has its mount point |
| `UninstallCommand.CallUninstallsBottomUp` | datalad/distribution/uninstall.py:157-164 | a successful call reports exactly the target datasets, in strictly descending path order, so a dataset nested in another target is uninstalled before it |
| `UninstallCommand.CallUninstallsTargets` | datalad/distribution/uninstall.py:155-166 | after a successful call no target is installed, has open handles or a cached configuration |
| `UninstallCommand.CallLeavesMountPoint` | datalad/distribution/uninstall.py:155-166 | after a successful call, every target lying under no other target has its mount point on disk |
| `UninstallCommand.CallFrame` | datalad/distribution/uninstall.py:110-166 | whatever the outcome, even a failure halfway through the removals, a path under none of the targets neither appears nor disappears, and keeps its installed state, local content, uncommitted changes, open handles and cached configuration |
| `UninstallCommand.NoDatasetAmongDrops` | datalad/distribution/uninstall.py:41 | helper of `RemoveAllReportsInOrder`: the entries built from a drop report never name a dataset as uninstalled |
| `UninstallCommand.UninstalledAppend` | datalad/distribution/uninstall.py:161-164 | helper of `RemoveAllReportsInOrder`: the datasets named by concatenated result lists are those of each part, in order |
| `Sorting.SortDescending` | datalad/distribution/uninstall.py:159 | `sorted(..., reverse=True)` gives a descending permutation of its input, without repetitions if the input had none |
| `Sorting.SortedListingIsCanonical` | datalad/distribution/uninstall.py:159 | whatever order the dictionary lists its keys in, the sorted order is the same |
| `Sorting.DescendingUnique` | datalad/distribution/uninstall.py:159 | two strictly descending listings of the same paths are equal |
| `Sorting.NestedBeforeContainer` | datalad/distribution/uninstall.py:157-159 | in the descending order a path comes before every listed directory that contains it |
| `Paths.StrLessTotal` | datalad/distribution/uninstall.py:159 | any two distinct paths are ordered one way or the other |
| `Paths.StrLessTransitive` | datalad/distribution/uninstall.py:159 | the path order is transitive |
| `Paths.ContainerSortsFirst` | datalad/distribution/uninstall.py:157-159 | a directory sorts before every path beneath it |
| `Datasets.AfterRmTree` | datalad/distribution/uninstall.py:54 | the directory and everything beneath it is gone from disk and no longer installed; nothing else on disk changes |
| `Datasets.World.DropFiles` | datalad/distribution/uninstall.py:41 | returns the collaborator's report; a successful drop leaves the dataset without local content, a refusal changes nothing |
| `Datasets.World.Close` | datalad/distribution/uninstall.py:52 | the dataset's handles are released and nothing else changes |
| `Datasets.World.RmTree` | datalad/distribution/uninstall.py:54 | requires the path to exist; the world becomes `AfterRmTree` of the old one |
| `Datasets.World.MakeDirs` | datalad/distribution/uninstall.py:57 | requires the path to be absent; afterwards it exists and nothing else changes |
| `Datasets.World.InvalidateConfig` | datalad/distribution/uninstall.py:59 | the cached configuration is dropped and nothing else changes |
| `Datasets.World.HandleDirtyDatasets` | datalad/distribution/uninstall.py:152-153 | under `fail` it refuses on the dirty targets and changes nothing; under `save-before` no target stays dirty; it never removes a path or a dataset |
| `Datasets.AfterHandleDirty` | datalad/distribution/uninstall.py:152-153 | only the dirty set changes, and only for the targets; under `save-before` no target remains dirty |
| `UninstallScenarios.RemoveOne` | datalad/distribution/uninstall.py:159-164 | a removal loop over a single dataset has exactly that dataset's outcome |
| `UninstallScenarios.WholeSubdatasetPasses` | datalad/distribution/uninstall.py:117-159 | a request for the whole of one subdataset that has a superdataset, made from outside it with nothing dirty, passes every check and goes straight to removal |
| `UninstallScenarios.CleanSubdatasetStep` | datalad/distribution/uninstall.py:38-61 | on `/root/sub1`, whose content is available elsewhere: the file content is dropped, the tree removed, the mount point recreated, and the file then the dataset reported |
| `UninstallScenarios.UninstallCleanSubdataset` | datalad/distribution/uninstall.py:110-166 | the whole command on `/root/sub1`, run from `/root`, succeeds with those two results; `/root` stays installed |
| `UninstallScenarios.RefuseTopLevel` | datalad/distribution/uninstall.py:141-149 | asking for the top-level `/root` fails with a single top-level complaint and changes nothing |
| `UninstallScenarios.PresentNestedSubdataset` | datalad/distribution/uninstall.py:40-47 | with an installed `/root/sub1/nested` and no recursion, the command raises the present-subdataset error after dropping the content of `sub1`, and removes nothing |

## Left out

- `datalad/crawler/pipelines/nda.py`: a declarative crawl pipeline assembled from collaborators that are not part of this model. Its only computation is the `sprefix` expression.
- `Interface._prep`: its path resolution, including the `recursive` flag, is a function parameter. The model does not say which datasets a request resolves to.
- The non-installed paths `_prep` reports are only logged by the source. The model drops them.
- `handle_dirty_datasets`: modelled as a policy over the target datasets only. Saving the superdatasets up to `base` is not modelled. `CallFrame`'s promise that a path outside the targets keeps its uncommitted changes rests on this: with `save-before` and a `dataset` given, the source also saves dirty datasets between the targets and `base`.
- `_drop_files`: how it checks remote availability is not modelled. The `drop` parameter gives its report for each dataset.
- `Datasets.AfterRmTree`: failures of `rmtree` are not modelled; it is only called on an installed, hence existing, path. This includes files held open on network filesystems. `ds.close()` is modelled only as clearing the dataset's open handles.
- `Datasets.World.MakeDirs`: `os.makedirs` also creates missing parent directories. The model adds only the path itself, that is, it assumes the parent directory exists. `CallFrame`'s promise that no path outside the targets appears rests on this assumption.
- `Paths.PathIsUnder`: `path_is_under` compares normalised relative paths. The model compares strings, so `/` as a target directory and symbolic links are not covered.
- Dataset objects, their identity, and the flyweight cache: the model keys every dataset by its path.
- Logging, `_params_`, and `result_renderer_cmdline`: these are user-interface plumbing.

# Software-defined dataset manager, modelled in Dafny

This is a model of the core of the software-defined dataset manager (`sddm`). The manager keeps each
*data descriptor* folder on its own git branch of a shared repository. It has these operations:

- `upload` copies a descriptor folder into the working tree, creates a branch named after the folder
  when the branch listing does not mention it, then commits, pushes and returns to `main`.
- `get_descriptors` turns the output of `git branch --list` into the list of descriptor names.
- `download` checks out a descriptor branch and copies into an output directory.
- `merge_branch` / `merge_branches_to_master` merge the `pipelines` folder of `sample1` and `sample2`
  into `master`.
- `generate_example_deskriptor` numbers a new `descriktor_<n>.json` file in a folder and makes sure
  the folder holds an `etl_pipeline.py` stub.

## Modules

- **Wrappers** (`wrappers.dfy`): the `Option` and `Result` datatypes.
- **Strings** (`strings.dfy`): the Python string operations the manager uses:
  - substring `in` (`Contains`);
  - `str.split` with a one-character separator;
  - `str.strip()` with Python's whitespace set;
  - `str.rstrip(ch)`.
- **Paths** (`paths.dfy`): `posixpath.normpath`, `posixpath.join` and the descriptor name, which is
  the last `/`-separated piece of the normalised path.
- **PyInt** (`pyint.dfy`): `int()` on decimal text and `str()` of an integer.
- **Generator** (`generator.dfy`): `generate_example_deskriptor`.
  - The folder is a class `Folder` with three fields, updated in place:
    - `present`, whether the directory exists;
    - `names`, the listing order;
    - `contents`, file name to text.
  - The counter choice is specified by pure functions (`DescriptorFiles`, `CounterOf`, `NextCounter`),
    and lemmas prove its properties.
- **Sddm** (`sddm.dfy`): `sddm.py`.
  - A `Workspace` class holds what the functions change:
    - the filesystem as a map from path to `Dir`/`File`;
    - the git branches and the current branch;
    - the log of git commands issued, as argument vectors.
  - `run_git_command` is an oracle. The only output the source reads is the `git branch` listing.
    So `Upload`, `GetDescriptors` and `Download` take that output as a parameter
    `listing: Option<string>`, where `None` means the command failed.
  - Every other command is logged. Two of them also have their intended effect on the branch state:
    `git checkout -b n` creates branch `n` and makes it current, and `git checkout n` switches to `n`.

## Where the model follows the code

The model follows `sddm.py` and `utils/utils.py` as written:

- `download(deskriptorFolder, outputDirPath)` takes only those two arguments. It has no JSON-output
  flag, and it fetches nothing from the remote before checking out.
- `download` copies the *output directory* into `outputDir/<descriptor>` (`sddm.py:104`). It does not
  copy the checked-out descriptor folder. `Sddm.Workspace.Download` states exactly this effect.
- `get_descriptors` splits the whole listing on `'\n'`. A real listing ends with a newline, so the
  result always ends with an empty entry `""` (`Sddm.DescriptorsOfListing`).
- The `if not descriptor_list` guard in `get_descriptors` can never fire, because `split` never
  returns an empty list (`Strings.Split`).
- The current branch is listed by git as `* name`. `strip()` keeps the `* `, so a checked-out descriptor
  branch comes back as `* name` and never as `name` (`Sddm.CheckedOutBranchComesBackMarked`).
  `download` therefore cannot find the branch that is currently checked out.
- `upload` decides whether to create a branch by a substring test on the raw listing. This test has
  false positives, and the model keeps them: any substring of a listed branch name counts as existing
  (`Sddm.SubstringOfBranchBlocksCreation`, `Sddm.SubstringTestMissesNewName`).

## Model

| member | source | states |
|---|---|---|
| Strings.Contains | sddm.py:43 | Python's substring test `sub in s` (also at sddm.py line 24); `ContainsIffOccurs` proves it means "some slice equals `sub`", and `ContainsAppendLeft`/`ContainsAppendRight` that it survives extending the text |
| Strings.ContainsIffOccurs | sddm.py:24 | Python's `sub in s` holds exactly when some slice of `s` equals `sub` |
| Strings.Split | sddm.py:70-73 | `split` yields at least one piece, so the empty-list guard is dead |
| Strings.SplitPiecesAvoidSeparator | sddm.py:37 | no piece of a split contains the separator |
| Strings.SplitTwoFields | utils/utils.py:17 | two separator-free fields joined by the separator split back into exactly those fields |
| Strings.SplitConcat | utils/utils.py:17 | splitting `a + sep + b` gives the pieces of `a` followed by the pieces of `b` |
| Strings.SplitNoSeparator | sddm.py:37 | text without the separator splits into itself alone |
| Strings.TrimLeft | sddm.py:74 | the result is a suffix, everything removed is whitespace, and the result does not start with whitespace |
| Strings.TrimRight | sddm.py:74 | the result is a prefix, everything removed is whitespace, and the result does not end with whitespace |
| Strings.Strip | sddm.py:74 | `str.strip()`, the composition of `TrimLeft` and `TrimRight`, whose contracts characterise it; `ContainsOfStrip` and `StripIndented` state what the descriptor filter needs |
| Strings.ContainsOfStrip | sddm.py:74 | a word without whitespace found in the stripped line was already in the line |
| Strings.StripIndented | sddm.py:74 | stripping a blank-indented name with no surrounding whitespace gives the name back |
| Strings.RStrip | sddm.py:78 | `rstrip('/')` removes exactly the trailing run of `/` and keeps the rest as a prefix |
| Paths.NormPath | sddm.py:29 | `posixpath.normpath` (also used by `download` at line 84): kept leading slashes and the components `Resolve` keeps, joined by `/`, or `.` when nothing is left; `DescriptorNameIsLastComponent` and `TrailingSlashKeepsName` state its consequences |
| Paths.Resolve | sddm.py:29 | normalised components are never empty or `.`, and an absolute path keeps no `..` |
| Paths.PathJoin | sddm.py:49 | `posixpath.join` of two parts (also used by `download` at line 98); `PathJoinEndsWithName` states its properties |
| Paths.PathJoinEndsWithName | sddm.py:49 | the result ends with the name, preceded by a `/` whenever the base contributes anything; a relative name keeps the base as prefix and an absolute name replaces it |
| Paths.DescriptorName | sddm.py:29-37 | the branch name `upload` derives, the last `/`-piece of the normalised path; `DescriptorNameIsLastComponent` and `TrailingSlashKeepsName` state what it is |
| Paths.DescriptorNameIsLastComponent | sddm.py:29-37 | the descriptor name is the last normalised component (`""` for a root path, `.` for an empty relative one) |
| Paths.NameWithoutComponents | sddm.py:29-37 | with no component left, the name is `""` for an absolute path and `.` for a relative one |
| Paths.NameWithComponents | sddm.py:29-37 | otherwise the name is the last normalised component |
| Paths.TrailingSlashKeepsName | sddm.py:29-37 | `dir/` and `dir` give the same descriptor name |
| PyInt.ParseInt | utils/utils.py:17 | Python `int(text)`: surrounding whitespace, an optional sign and at least one decimal digit, else the `ValueError` case `None`; `ParseIntOfIntToString` ties it to `IntToString` |
| PyInt.IntToString | utils/utils.py:24 | `str(n)`: a `-` for negatives, then `NatDigits`; `ParseIntOfIntToString` and `IntToStringCharacters` state its properties |
| PyInt.NatDigits | utils/utils.py:24 | `str(n)` of a natural is a non-empty digit string with no leading zero except for 0 |
| PyInt.ParseIntOfIntToString | utils/utils.py:17-24 | `int(str(n)) == n` for every integer |
| PyInt.ParseIntOfDigits | utils/utils.py:17 | `int` of a non-empty run of digits is its decimal value |
| PyInt.ParseIntOfNegated | utils/utils.py:17 | `int` of `-` followed by a non-empty run of digits is the negated decimal value |
| Generator.IsDescriptorFile | utils/utils.py:13 | the filter `startswith("descriktor_") and endswith(".json")`; `DescriptorFileNameRoundTrip` shows generated names pass it and `NewDescriptorIsFresh` that the pipeline file does not |
| Generator.DescriptorFiles | utils/utils.py:13 | keeps exactly the listing entries that start with `descriktor_` and end with `.json`; `DescriptorFilesAppend` shows it keeps the listing order |
| Generator.DescriptorFilesAppend | utils/utils.py:13 | appending a name appends it to the descriptor files exactly when it is one, so the filter keeps listing order |
| Generator.CounterOf | utils/utils.py:17 | the counter field `int(f.split('.')[0].split('_')[1])`, `None` where Python raises; `DescriptorFileNameRoundTrip` and `NextCounterFailsIffBadCounter` state its properties |
| Generator.ParsedCounters | utils/utils.py:17 | one parse per descriptor file |
| Generator.Collect | utils/utils.py:17 | the counters are available exactly when every file name parses, and one parse failure fails the whole run |
| Generator.CounterAfter | utils/utils.py:14-21 | 0 for no descriptor files, else the largest parsed counter plus one, `None` when one does not parse; `CounterAfterGrows` states how it moves |
| Generator.NextCounter | utils/utils.py:13-21 | the counter the generator picks for a folder listing; `NextCounterOfNoDescriptors`, `NextCounterFailsIffBadCounter`, `NextCounterIsMaxPlusOne` and `NextCounterAfterGeneration` state its properties |
| Generator.DescriptorFileName | utils/utils.py:24 | `f"descriktor_{n}.json"`; `DescriptorFileNameRoundTrip` shows its counter parses back and `NewDescriptorIsFresh` that the chosen one is new |
| Generator.Max | utils/utils.py:18 | the maximum is an element and bounds every element |
| Generator.NextCounterOfNoDescriptors | utils/utils.py:14-21 | with no descriptor file in the folder, the counter is 0 |
| Generator.NextCounterFailsIffBadCounter | utils/utils.py:17 | the run fails exactly when some descriptor file's counter field is not an integer |
| Generator.NextCounterIsMaxPlusOne | utils/utils.py:17-19 | the new counter exceeds every existing counter and is one more than one of them |
| Generator.NextCounterAboveAll | utils/utils.py:17-19 | every descriptor file's counter parses and is below the new counter |
| Generator.NextCounterJustAboveOne | utils/utils.py:17-19 | returns a descriptor file whose counter is the new counter minus one |
| Generator.CounterAfterIsMaxPlusOne | utils/utils.py:17-19 | over the descriptor files themselves: every counter is below the pick, and the returned file's counter is just below it |
| Generator.CounterAfterFailsIff | utils/utils.py:17 | over the descriptor files themselves: no pick exactly when some counter does not parse |
| Generator.DescriptorFilesMembers | utils/utils.py:13 | a name is among the descriptor files exactly when it is listed and passes the filter |
| Generator.DescriptorFileNameRoundTrip | utils/utils.py:17-24 | `descriktor_<n>.json` is a descriptor file, and parsing its counter gives `n` back |
| Generator.NewDescriptorIsFresh | utils/utils.py:13-37 | the new descriptor file name is not already in the folder and differs from the pipeline stub's name |
| Generator.DescriptorFilesAppendOthers | utils/utils.py:13 | non-descriptor files do not change the descriptor list |
| Generator.CounterAfterGrows | utils/utils.py:17-19 | adding the file with the chosen counter moves the next choice up by one |
| Generator.NextCounterAfterGeneration | utils/utils.py:13-37 | after a successful run (plus the stub), the next run picks the following counter |
| Generator.Generated | utils/utils.py:24-37 | the folder contents after a successful run: exactly the old names plus the new descriptor and the pipeline file, `{}` under the new descriptor, the stub under `etl_pipeline.py` unless it existed, and every old file unchanged |
| Generator.Folder.Write | utils/utils.py:28-29 | writing a file sets its contents, records a new name once and leaves other files unchanged |
| Generator.Folder.GenerateExampleDeskriptor | utils/utils.py:4-37 | creates the folder if missing and fails without writing on a bad counter. Otherwise it writes `{}` to the fresh `descriktor_<next>.json`, adds the pipeline stub only if absent and keeps every old file; the new contents are `Generated` of the old |
| Generator.Folder.WriteDescriptor | utils/utils.py:24-37 | the two writes of a successful run leave the contents `Generated` describes and append the new names in order |
| Sddm.KeptLines | sddm.py:74 | `[item.strip() for item in lines if 'main' not in item]`; `KeptLinesSound`, `KeptLinesComplete`, `KeptLinesAppend` and `KeptLinesAvoidTrunk` characterise it |
| Sddm.Descriptors | sddm.py:70-74 | what `get_descriptors` returns for a listing; `DescriptorsAvoidTrunk`, `DescriptorsOfAnyListing`, `DescriptorsOfListing` and `CheckedOutBranchComesBackMarked` state it |
| Sddm.KeptLinesSound | sddm.py:74 | every returned entry is a stripped listing line that does not contain `main` |
| Sddm.KeptLinesComplete | sddm.py:74 | every listing line without `main` appears, stripped, among the entries |
| Sddm.KeptLinesAppend | sddm.py:74 | the filter works line by line, so entries keep the listing order |
| Sddm.KeptLinesAvoidTrunk | sddm.py:74 | no returned entry contains `main` |
| Sddm.DescriptorsAvoidTrunk | sddm.py:70-74 | no descriptor returned for any listing contains `main` |
| Sddm.ReadBack | sddm.py:74 | a branch comes back as its bare name unless it mentions `main` or is checked out; the checked-out one comes back as `* name`, and nothing else comes back |
| Sddm.DescriptorsOfAnyListing | sddm.py:68-74 | for git's listing format with any branch checked out, the result is the read-back branches in order, then `""` |
| Sddm.ReadBackOnTrunk | sddm.py:74 | with a trunk branch checked out, the read-back names are exactly the non-trunk branches |
| Sddm.CheckedOutBranchComesBackMarked | sddm.py:74 | a checked-out non-trunk branch comes back as `* name` and never as `name`, so `download` cannot find it |
| Sddm.DescriptorsOfListing | sddm.py:68-74 | for git's listing format with the trunk checked out, the result is the non-trunk branch names in order, then `""` |
| Sddm.NonTrunk | sddm.py:74 | a branch is kept exactly when its name does not contain `main` |
| Sddm.UploadedBranchIsDescriptor | sddm.py:90-92 | an uploaded branch whose name avoids `main` is found by `download`'s lookup |
| Sddm.CreatesBranch | sddm.py:43 | `upload`'s test `name not in branches` on the raw listing text; `SubstringOfBranchBlocksCreation` and `SubstringTestMissesNewName` state when it fails |
| Sddm.SubstringOfBranchBlocksCreation | sddm.py:41-45 | a name occurring anywhere inside a listed branch name creates no branch, so an existing branch is never created twice and any substring of a branch name is taken for an existing one |
| Sddm.SubstringTestMissesNewName | sddm.py:43-45 | the substring test skips creating `data` when only `data2` exists |
| Sddm.CreateDir | sddm.py:85-86 | `mkdir` adds the directory and changes no other entry |
| Sddm.CopyIfAbsent | sddm.py:52-53 | the destination exists afterwards, takes the source's node only if it was absent, and nothing else changes |
| Sddm.Workspace.RunGit | sddm.py:10-17 | every command is logged, and `checkout -b` / `checkout` update the branch set and the current branch |
| Sddm.Workspace.Upload | sddm.py:22-66 | each error is raised at its own point with no effect beyond that point. On success it issues the exact command sequence, creates the branch only when the listing lacks the name, copies into `cwd/<name>` only if absent and ends on `main` |
| Sddm.Workspace.OpenBranch | sddm.py:43-45 | `git checkout -b <name>` exactly when the branch is to be created; it then exists and is checked out |
| Sddm.Workspace.Deliver | sddm.py:43-66 | after the listing, `upload` logs the optional branch creation and the publishing commands, copies the folder if absent and ends on `main` |
| Sddm.Workspace.Publish | sddm.py:55-66 | appends add, commit, push `--set-upstream` and `checkout main`, and ends on `main` |
| Sddm.Workspace.GetDescriptors | sddm.py:68-74 | logs `git branch --list` and returns the filtered, stripped lines, or an error when git gives no output |
| Sddm.Workspace.Download | sddm.py:76-104 | covers the slash check before any effect, `mkdir` of the output dir, the not-found error after it, and checkout of the descriptor branch, then the copy of the output dir into `out/<name>` if absent |
| Sddm.Workspace.MergeBranch | sddm.py:117-135 | appends the six merge commands, including the interpolated commit message, and leaves `master` checked out |
| Sddm.Workspace.MergeBranchesToMaster | sddm.py:137-144 | merges `sample1` then `sample2`, then pushes `master` |

## Left out

- Git itself. Only the argument vectors are modelled, plus the intended branch effect of `checkout -b`
  and `checkout`. The effects of merge, reset, add, commit and push on the repository, on file
  contents and on the remote are not modelled.
- Git command outputs other than the branch listing. The source ignores them.
- `run_git_command`'s error printing and subprocess handling. A failed command is a `None` listing.
- `upload` with a failing `git branch -l`. There the source raises `TypeError` from `in None`; the
  model reports this as `NoGitOutput`.
- `shutil.copy` is modelled as "the destination now holds the source's node" (one map entry). Copying
  the contents of a directory tree is not modelled. The real `shutil.copy` raises `IsADirectoryError`
  on a directory source, which the model does not capture. The next two lines give the consequences.
- Sddm.Workspace.Upload: when `cwd/<name>` is absent, a real `upload` stops at the copy (sddm.py:53),
  right after any `checkout -b`. It issues no add, commit or push and never returns to `main`. The
  model's `Done` outcome with the full command log matches no real run for those inputs.
- Sddm.Workspace.Download: when `out/<name>` is absent, a real `download` stops in the same way at
  sddm.py:104, after its checkout. The model's `Done` outcome with the copied entry matches no real
  run for those inputs.
- `git checkout`'s effect on the working tree is not modelled. After `checkout main` the model's `fs`
  still holds the copied descriptor folder, which git would remove from the working tree.
- `os.path.exists`/`isdir` look up paths literally in the map. Symbolic links, relative-to-absolute
  resolution and permissions are not modelled.
- `os.mkdir` failing because a parent directory is missing is not modelled.
- Printed messages and the text of raised exceptions are not modelled. Only the error kind is kept.
- `int()` on non-ASCII digits and on underscores between digits is not modelled. Such names are
  treated as unparsable.
- `Generator.Folder` does not distinguish subdirectories from files. The order of `names` is creation
  order, which stands in for `os.listdir`'s unspecified order.
- `os.makedirs` creating missing parent directories of the folder is not modelled. The folder is one
  directory.
- The JSON serialisation is reduced to the text `{}` that `json.dump({})` writes.
- The `__main__` driver, the pipeline script and the other helper scripts of the repository are not
  part of this model.

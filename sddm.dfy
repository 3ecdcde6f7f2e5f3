/**
 * The software-defined dataset manager of sddm.py. Each descriptor folder is
 * stored on a git branch named after the folder. The repository and the disk
 * are abstract state: the local branches, the checked-out branch, the paths
 * that exist, and the log of git command lines issued. `run_git_command` is an
 * oracle. Only the output of `git branch` is used, so it is a parameter
 * (None when git failed).
 */
module Sddm {
  import opened Wrappers
  import opened Strings
  import opened Paths

  type Command = seq<string>

  const TRUNK := "main"
  const MERGE_TARGET := "master"
  const UPLOAD_MESSAGE := "Added software defined dataset."
  /** The branches `merge_branches_to_master` merges, in order. */
  const SAMPLE_BRANCHES := ["sample1", "sample2"]

  /** `git branch -l`, as `upload` spells it. */
  const BRANCH_LIST_SHORT: Command := ["git", "branch", "-l"]
  /** `git branch --list`, as `get_descriptors` spells it. */
  const BRANCH_LIST_LONG: Command := ["git", "branch", "--list"]
  const PUSH_MASTER: Command := ["git", "push", "origin", "master"]

  function CheckoutNewCommand(name: string): Command { ["git", "checkout", "-b", name] }
  function CheckoutCommand(name: string): Command { ["git", "checkout", name] }
  function AddCommand(path: string): Command { ["git", "add", path] }
  function CommitCommand(message: string): Command { ["git", "commit", "-m", message] }
  function PushUpstreamCommand(name: string): Command { ["git", "push", "--set-upstream", "origin", name] }

  /** The six commands `merge_branch(branch)` issues, in order. */
  function MergeCommands(branch: string): seq<Command>
  {
    [ CheckoutCommand(MERGE_TARGET),
      ["git", "merge", "--no-commit", "--no-ff", branch],
      ["git", "reset", "HEAD", "--", "."],
      ["git", "checkout", "--", "."],
      ["git", "add", "pipelines"],
      CommitCommand("Merged pipelines folder from " + branch + " into master") ]
  }

  /** The commands of merging each of `branches` in turn. */
  function MergeAllCommands(branches: seq<string>): seq<Command>
    decreases |branches|
  {
    if branches == [] then []
    else MergeAllCommands(branches[..|branches| - 1]) + MergeCommands(branches[|branches| - 1])
  }

  /** What `upload` issues after the listing: the optional branch creation, then add, commit, push, back to the trunk. */
  function UploadCommands(name: string, dst: string, createBranch: bool): seq<Command>
  {
    [BRANCH_LIST_SHORT] + PublishCommands(name, dst, createBranch)
  }

  /** The part of `upload` after the listing. */
  function PublishCommands(name: string, dst: string, createBranch: bool): seq<Command>
  {
    (if createBranch then [CheckoutNewCommand(name)] else [])
    + [AddCommand(dst), CommitCommand(UPLOAD_MESSAGE), PushUpstreamCommand(name), CheckoutCommand(TRUNK)]
  }

  lemma AppendAssoc<T>(a: seq<T>, b: seq<T>, c: seq<T>)
    ensures a + b + c == a + (b + c)
  {
  }

  /** `git checkout -b <b>`: creates branch `b` and checks it out. */
  predicate IsCheckoutNew(command: Command)
  {
    |command| == 4 && command[0] == "git" && command[1] == "checkout" && command[2] == "-b"
  }

  /** `git checkout <b>`: checks out branch `b`. */
  predicate IsCheckout(command: Command)
  {
    |command| == 3 && command[0] == "git" && command[1] == "checkout"
  }

  /** `upload` creates a branch exactly when the name is not a substring of the listing text. */
  predicate CreatesBranch(name: string, listing: string)
  {
    !Contains(listing, name)
  }

  // ---------------------------------------------------------------------------
  // get_descriptors

  /** What one listing line contributes: nothing when it mentions the trunk, else its stripped text. */
  function KeptLine(line: string): seq<string>
  {
    if Contains(line, TRUNK) then [] else [Strip(line)]
  }

  /** `[item.strip() for item in lines if 'main' not in item]`. */
  function KeptLines(lines: seq<string>): seq<string>
    decreases |lines|
  {
    if lines == [] then [] else KeptLine(lines[0]) + KeptLines(lines[1..])
  }

  /** Every entry is the stripped form of a line that does not mention the trunk. */
  lemma {:induction false} KeptLinesSound(lines: seq<string>, k: nat)
    requires k < |KeptLines(lines)|
    ensures exists j :: 0 <= j < |lines| && !Contains(lines[j], TRUNK) && KeptLines(lines)[k] == Strip(lines[j])
    decreases |lines|
  {
    var rest := lines[1..];
    var head := KeptLine(lines[0]);
    assert KeptLines(lines) == head + KeptLines(rest);
    if k < |head| {
      assert 0 <= 0 < |lines| && !Contains(lines[0], TRUNK) && KeptLines(lines)[k] == Strip(lines[0]);
    } else {
      KeptLinesSound(rest, k - |head|);
      var j :| 0 <= j < |rest| && !Contains(rest[j], TRUNK) && KeptLines(rest)[k - |head|] == Strip(rest[j]);
      assert lines[j + 1] == rest[j];
      assert KeptLines(lines)[k] == KeptLines(rest)[k - |head|];
      assert 0 <= j + 1 < |lines| && !Contains(lines[j + 1], TRUNK) && KeptLines(lines)[k] == Strip(lines[j + 1]);
    }
  }

  /** Every line that does not mention the trunk contributes its stripped form. */
  lemma KeptLinesComplete(lines: seq<string>, j: nat)
    requires j < |lines| && !Contains(lines[j], TRUNK)
    ensures exists k :: 0 <= k < |KeptLines(lines)| && KeptLines(lines)[k] == Strip(lines[j])
  {
    var a := lines[..j];
    var b := lines[j + 1..];
    assert lines == a + ([lines[j]] + b);
    KeptLinesAppend(a, [lines[j]] + b);
    KeptLinesAppend([lines[j]], b);
    assert KeptLines([lines[j]]) == KeptLine(lines[j]) + KeptLines([]);
    assert KeptLine(lines[j]) == [Strip(lines[j])];
    var k := |KeptLines(a)|;
    assert KeptLines(lines)[k] == Strip(lines[j]);
  }

  /**
   * The descriptor names `get_descriptors` reads off a `git branch --list`
   * output. The source's `if not descriptor_list` guard never fires, because
   * splitting always yields at least one line.
   */
  function Descriptors(listing: string): seq<string>
  {
    KeptLines(Split(listing, '\n'))
  }

  /** The filter keeps listing order: it maps concatenated listings to concatenated results. */
  lemma {:induction false} KeptLinesAppend(a: seq<string>, b: seq<string>)
    ensures KeptLines(a + b) == KeptLines(a) + KeptLines(b)
    decreases |a|
  {
    if a != [] {
      assert (a + b)[0] == a[0];
      assert (a + b)[1..] == a[1..] + b;
      KeptLinesAppend(a[1..], b);
    } else {
      assert a + b == b;
    }
  }

  /** `get_descriptors` never returns an entry that mentions the trunk name. */
  lemma {:induction false} KeptLinesAvoidTrunk(lines: seq<string>)
    ensures forall k :: 0 <= k < |KeptLines(lines)| ==> !Contains(KeptLines(lines)[k], TRUNK)
    decreases |lines|
  {
    if lines != [] {
      KeptLinesAvoidTrunk(lines[1..]);
      if !Contains(lines[0], TRUNK) {
        if Contains(Strip(lines[0]), TRUNK) {
          ContainsOfStrip(lines[0], TRUNK);
        }
      }
    }
  }

  lemma DescriptorsAvoidTrunk(listing: string)
    ensures forall k :: 0 <= k < |Descriptors(listing)| ==> !Contains(Descriptors(listing)[k], TRUNK)
  {
    KeptLinesAvoidTrunk(Split(listing, '\n'));
  }

  // ---------------------------------------------------------------------------
  // What `git branch --list` prints, and how the store reads it back

  /** One line of `git branch` output: the checked-out branch is marked with `* `, the others indented. */
  function BranchLine(branch: string, current: string): string
  {
    (if branch == current then "* " else "  ") + branch
  }

  function BranchLines(branches: seq<string>, current: string): (r: seq<string>)
    ensures |r| == |branches|
    decreases |branches|
  {
    if branches == [] then [] else [BranchLine(branches[0], current)] + BranchLines(branches[1..], current)
  }

  /** The full `git branch` output: one newline-terminated line per branch. */
  function Listing(branches: seq<string>, current: string): string
    decreases |branches|
  {
    if branches == [] then ""
    else BranchLine(branches[0], current) + "\n" + Listing(branches[1..], current)
  }

  /** The branches that are not the trunk by the store's reckoning (their name does not mention it). */
  function NonTrunk(branches: seq<string>): (r: seq<string>)
    ensures forall b :: b in r <==> b in branches && !Contains(b, TRUNK)
    decreases |branches|
  {
    if branches == [] then []
    else (if Contains(branches[0], TRUNK) then [] else [branches[0]]) + NonTrunk(branches[1..])
  }

  /** Git branch names are non-empty and hold no white space. */
  predicate WellFormedBranches(branches: seq<string>)
  {
    forall k :: 0 <= k < |branches| ==> branches[k] != "" && NoSpace(branches[k])
  }

  /**
   * What `get_descriptors` gives back for the branches of a listing: branches
   * that mention the trunk are dropped, the checked-out one keeps git's `* `
   * marker and the others come back as their bare names.
   */
  function ReadBack(branches: seq<string>, current: string): (r: seq<string>)
    ensures forall b :: b in branches && !Contains(b, TRUNK) && b != current ==> b in r
    ensures current in branches && !Contains(current, TRUNK) ==> "* " + current in r
    ensures forall e :: e in r ==> (e in branches && e != current && !Contains(e, TRUNK)) || e == "* " + current
    decreases |branches|
  {
    if branches == [] then []
    else
      (if Contains(branches[0], TRUNK) then []
       else [if branches[0] == current then "* " + branches[0] else branches[0]])
      + ReadBack(branches[1..], current)
  }

  /** Splitting the output at newlines gives its lines and one empty piece after the final newline. */
  lemma {:induction false} ListingLines(branches: seq<string>, current: string)
    requires WellFormedBranches(branches)
    ensures Split(Listing(branches, current), '\n') == BranchLines(branches, current) + [""]
    decreases |branches|
  {
    if branches != [] {
      var line := BranchLine(branches[0], current);
      var rest := branches[1..];
      assert WellFormedBranches(rest) by {
        assert forall k :: 0 <= k < |rest| ==> rest[k] == branches[k + 1];
      }
      ListingLines(rest, current);
      assert '\n' !in line by {
        assert NoSpace(branches[0]);
        assert forall i :: 0 <= i < |line| ==> line[i] != '\n';
      }
      assert Listing(branches, current) == line + ['\n'] + Listing(rest, current);
      SplitConcat(line, '\n', Listing(rest, current));
      SplitNoSeparator(line, '\n');
    }
  }

  /**
   * A branch line mentions the trunk exactly when its branch does, and it
   * strips to the branch name, with the `* ` marker left on the current one.
   */
  lemma BranchLineReadBack(branch: string, current: string)
    requires branch != "" && NoSpace(branch)
    ensures Contains(BranchLine(branch, current), TRUNK) <==> Contains(branch, TRUNK)
    ensures Strip(BranchLine(branch, current)) == if branch == current then "* " + branch else branch
  {
    var pad := if branch == current then "* " else "  ";
    var line := pad + branch;
    assert BranchLine(branch, current) == line;
    if Contains(branch, TRUNK) {
      ContainsAppendLeft(pad, branch, TRUNK);
    } else if Contains(line, TRUNK) {
      ContainsSkipPrefix(pad, branch, TRUNK);
    }
    if branch == current {
      assert !IsSpace(line[0]);
      assert TrimLeft(line) == line;
      assert line[|line| - 1] == branch[|branch| - 1];
      assert !IsSpace(line[|line| - 1]);
    } else {
      StripIndented(pad, branch);
    }
  }

  lemma {:induction false} KeptBranchLines(branches: seq<string>, current: string)
    requires WellFormedBranches(branches)
    ensures KeptLines(BranchLines(branches, current)) == ReadBack(branches, current)
    decreases |branches|
  {
    if branches != [] {
      var rest := branches[1..];
      assert WellFormedBranches(rest) by {
        assert forall k :: 0 <= k < |rest| ==> rest[k] == branches[k + 1];
      }
      KeptBranchLines(rest, current);
      BranchLineReadBack(branches[0], current);
      var lines := BranchLines(branches, current);
      assert lines[0] == BranchLine(branches[0], current);
      assert lines[1..] == BranchLines(rest, current);
    }
  }

  /**
   * `get_descriptors` on a `git branch --list` output: the read-back
   * branches in listing order, followed by one empty entry from the final
   * newline.
   */
  lemma DescriptorsOfAnyListing(branches: seq<string>, current: string)
    requires WellFormedBranches(branches)
    ensures Descriptors(Listing(branches, current)) == ReadBack(branches, current) + [""]
  {
    ListingLines(branches, current);
    KeptLinesAppend(BranchLines(branches, current), [""]);
    KeptBranchLines(branches, current);
    assert !Contains("", TRUNK);
    assert Strip("") == "";
  }

  /** With the trunk checked out no marker survives: the read-back names are the non-trunk branches. */
  lemma {:induction false} ReadBackOnTrunk(branches: seq<string>, current: string)
    requires Contains(current, TRUNK)
    ensures ReadBack(branches, current) == NonTrunk(branches)
    decreases |branches|
  {
    if branches != [] {
      ReadBackOnTrunk(branches[1..], current);
    }
  }

  /**
   * With the trunk checked out, `get_descriptors` reads back every
   * non-trunk branch in listing order, followed by one empty entry from the
   * final newline.
   */
  lemma DescriptorsOfListing(branches: seq<string>, current: string)
    requires WellFormedBranches(branches)
    requires Contains(current, TRUNK)
    ensures Descriptors(Listing(branches, current)) == NonTrunk(branches) + [""]
  {
    DescriptorsOfAnyListing(branches, current);
    ReadBackOnTrunk(branches, current);
  }

  /**
   * With a descriptor branch checked out, `get_descriptors` returns it as
   * `* name` and never as its bare name, so `download` cannot find the
   * branch that is currently checked out.
   */
  lemma CheckedOutBranchComesBackMarked(branches: seq<string>, current: string)
    requires WellFormedBranches(branches)
    requires current in branches && !Contains(current, TRUNK)
    ensures "* " + current in Descriptors(Listing(branches, current))
    ensures current !in Descriptors(Listing(branches, current))
  {
    DescriptorsOfAnyListing(branches, current);
    var r := ReadBack(branches, current);
    assert current != "";
    assert |"* " + current| != |current|;
    assert current !in r;
  }

  /** So every uploaded, well-named branch can be downloaded by its exact name once the trunk is checked out again. */
  lemma UploadedBranchIsDescriptor(branches: seq<string>, current: string, name: string)
    requires WellFormedBranches(branches)
    requires Contains(current, TRUNK)
    requires name in branches && !Contains(name, TRUNK)
    ensures name in Descriptors(Listing(branches, current))
  {
    DescriptorsOfListing(branches, current);
  }

  /**
   * A name that occurs anywhere inside a listed branch name is found by the
   * substring test, so `upload` creates no branch for it: an existing
   * branch is never created twice, and any substring of a branch name is
   * taken for an existing branch as well.
   */
  lemma {:induction false} SubstringOfBranchBlocksCreation(branches: seq<string>, current: string, name: string)
    requires exists k :: 0 <= k < |branches| && Contains(branches[k], name)
    ensures !CreatesBranch(name, Listing(branches, current))
    decreases |branches|
  {
    var k :| 0 <= k < |branches| && Contains(branches[k], name);
    var line := BranchLine(branches[0], current);
    var rest := Listing(branches[1..], current);
    assert Listing(branches, current) == line + ("\n" + rest);
    if k == 0 {
      var pad := if branches[0] == current then "* " else "  ";
      assert line == pad + branches[0];
      ContainsAppendLeft(pad, branches[0], name);
      ContainsAppendRight(line, "\n" + rest, name);
    } else {
      assert branches[1..][k - 1] == branches[k];
      SubstringOfBranchBlocksCreation(branches[1..], current, name);
      ContainsAppendLeft(line + "\n", rest, name);
      assert line + "\n" + rest == line + ("\n" + rest);
    }
  }

  /**
   * The substring test has false positives: with only `data2` besides the
   * trunk, uploading `data` creates no branch.
   */
  lemma SubstringTestMissesNewName()
    ensures "data" !in ["main", "data2"]
    ensures !CreatesBranch("data", Listing(["main", "data2"], "main"))
  {
    var branches := ["main", "data2"];
    assert "data" <= "data2";
    assert Contains(branches[1], "data");
    SubstringOfBranchBlocksCreation(branches, "main", "data");
  }

  // ---------------------------------------------------------------------------
  // The repository and the disk

  /** A path on disk: a directory or a file. */
  datatype Node = Dir | File

  predicate IsDir(fs: map<string, Node>, path: string)
  {
    path in fs && fs[path] == Dir
  }

  /** `if not os.path.exists(path): os.mkdir(path)`. */
  function CreateDir(fs: map<string, Node>, path: string): (r: map<string, Node>)
    ensures r.Keys == fs.Keys + {path}
    ensures forall p :: p in fs ==> r[p] == fs[p]
    ensures path !in fs ==> r[path] == Dir
  {
    if path in fs then fs else fs[path := Dir]
  }

  /** `if not os.path.exists(dst): shutil.copy(src, dst)`: an existing destination is left as it is. */
  function CopyIfAbsent(fs: map<string, Node>, src: string, dst: string): (r: map<string, Node>)
    requires src in fs
    ensures r.Keys == fs.Keys + {dst}
    ensures forall p :: p in fs ==> r[p] == fs[p]
    ensures dst !in fs ==> r[dst] == fs[src]
  {
    if dst in fs then fs else fs[dst := fs[src]]
  }

  /** Why an operation stopped (the source raises; the message texts are not modelled). */
  datatype Error =
    | NoForwardSlash         // RuntimeError: "Please define your path using forward slashes."
    | InvalidDescriptorPath  // ValueError: "Invalid deskriptor path."
    | NoGitOutput            // `run_git_command` returned None and the caller used it as a string
    | DescriptorNotFound     // RuntimeError: "The required data descriptor was not found. ..."

  datatype Outcome = Done | Raised(error: Error)

  class Workspace {
    /** The process's current working directory. */
    const cwd: string
    /** The paths that exist on disk. */
    var fs: map<string, Node>
    /** The local branches and the checked-out one. */
    var branches: set<string>
    var current: string
    /** Every git command line issued, oldest first. */
    var log: seq<Command>

    constructor (cwd: string, fs: map<string, Node>, branches: set<string>, current: string)
      ensures this.cwd == cwd && this.fs == fs && this.branches == branches && this.current == current
      ensures log == []
    {
      this.cwd := cwd;
      this.fs := fs;
      this.branches := branches;
      this.current := current;
      log := [];
    }

    /**
     * `run_git_command(command)` with its output ignored: the command is
     * logged; `checkout -b <b>` creates and checks out `b`, and `checkout <b>`
     * checks out `b`.
     */
    method RunGit(command: Command)
      modifies this
      ensures log == old(log) + [command] && fs == old(fs)
      ensures branches == if IsCheckoutNew(command) then old(branches) + {command[3]} else old(branches)
      ensures current ==
        if IsCheckoutNew(command) then command[3]
        else if IsCheckout(command) then command[2]
        else old(current)
    {
      log := log + [command];
      if IsCheckoutNew(command) {
        branches := branches + {command[3]};
        current := command[3];
      } else if IsCheckout(command) {
        current := command[2];
      }
    }

    /**
     * `upload(deskriptorFolderPath)`. `listing` is what `git branch -l`
     * prints, or None when it fails.
     */
    method Upload(path: string, listing: Option<string>) returns (r: Outcome)
      modifies this
      ensures '/' !in path ==> r == Raised(NoForwardSlash) && unchanged(this)
      ensures '/' in path && !IsDir(old(fs), NormPath(path)) ==>
        r == Raised(InvalidDescriptorPath) && unchanged(this)
      ensures '/' in path && IsDir(old(fs), NormPath(path)) && listing.None? ==>
        && r == Raised(NoGitOutput)
        && log == old(log) + [BRANCH_LIST_SHORT]
        && fs == old(fs) && branches == old(branches) && current == old(current)
      ensures '/' in path && IsDir(old(fs), NormPath(path)) && listing.Some? ==>
        var name := DescriptorName(path);
        var dst := PathJoin(cwd, name);
        var create := CreatesBranch(name, listing.value);
        && r == Done
        && log == old(log) + UploadCommands(name, dst, create)
        && branches == (if create then old(branches) + {name} else old(branches))
        && current == TRUNK
        && fs == CopyIfAbsent(old(fs), NormPath(path), dst)
    {
      if '/' !in path {
        return Raised(NoForwardSlash);
      }
      var folderPath := NormPath(path);
      if !IsDir(fs, folderPath) {
        return Raised(InvalidDescriptorPath);
      }
      var pieces := Split(folderPath, SEP);
      var name := pieces[|pieces| - 1];
      assert name == DescriptorName(path);
      ghost var log0 := log;
      RunGit(BRANCH_LIST_SHORT);
      if listing.None? {
        return Raised(NoGitOutput);
      }
      var create := CreatesBranch(name, listing.value);
      Deliver(name, folderPath, create);
      AppendAssoc(log0, [BRANCH_LIST_SHORT], PublishCommands(name, PathJoin(cwd, name), create));
      r := Done;
    }

    /** Everything `upload` does once the listing is in: open the branch, copy the folder, publish. */
    method Deliver(name: string, folderPath: string, create: bool)
      requires IsDir(fs, folderPath)
      modifies this
      ensures log == old(log) + PublishCommands(name, PathJoin(cwd, name), create)
      ensures branches == (if create then old(branches) + {name} else old(branches))
      ensures current == TRUNK
      ensures fs == CopyIfAbsent(old(fs), folderPath, PathJoin(cwd, name))
    {
      ghost var log0 := log;
      OpenBranch(name, create);
      ghost var checkout := if create then [CheckoutNewCommand(name)] else [];
      var dst := PathJoin(cwd, name);
      fs := CopyIfAbsent(fs, folderPath, dst);
      Publish(name, dst);
      AppendAssoc(log0, checkout, [AddCommand(dst), CommitCommand(UPLOAD_MESSAGE), PushUpstreamCommand(name), CheckoutCommand(TRUNK)]);
    }

    /** `git checkout -b <name>` when `create` holds, else nothing. */
    method OpenBranch(name: string, create: bool)
      modifies this
      ensures log == old(log) + (if create then [CheckoutNewCommand(name)] else [])
      ensures fs == old(fs)
      ensures branches == (if create then old(branches) + {name} else old(branches))
      ensures current == (if create then name else old(current))
    {
      if create {
        RunGit(CheckoutNewCommand(name));
      }
    }

    /** The tail of `upload`: stage the copied folder, commit, push the branch upstream, return to the trunk. */
    method Publish(name: string, dst: string)
      modifies this
      ensures log == old(log) + [AddCommand(dst), CommitCommand(UPLOAD_MESSAGE), PushUpstreamCommand(name), CheckoutCommand(TRUNK)]
      ensures current == TRUNK
      ensures fs == old(fs) && branches == old(branches)
    {
      RunGit(AddCommand(dst));
      RunGit(CommitCommand(UPLOAD_MESSAGE));
      RunGit(PushUpstreamCommand(name));
      RunGit(CheckoutCommand(TRUNK));
    }

    /** `get_descriptors()`. `listing` is what `git branch --list` prints, or None when it fails. */
    method GetDescriptors(listing: Option<string>) returns (r: Result<seq<string>, Error>)
      modifies this
      ensures log == old(log) + [BRANCH_LIST_LONG]
      ensures fs == old(fs) && branches == old(branches) && current == old(current)
      ensures r == if listing.None? then Failure(NoGitOutput) else Success(Descriptors(listing.value))
    {
      RunGit(BRANCH_LIST_LONG);
      if listing.None? {
        return Failure(NoGitOutput);
      }
      r := Success(Descriptors(listing.value));
    }

    /**
     * `download(deskriptorFolder, outputDirPath)`: strip trailing slashes from
     * the name, check the output path and create the directory if it is
     * missing, then test the name for exact membership in `get_descriptors()`;
     * only then check the branch out and copy. As the code is written, the
     * copy takes the output directory itself as its source.
     */
    method Download(descriptor: string, outputDir: string, listing: Option<string>) returns (r: Outcome)
      modifies this
      ensures '/' !in outputDir ==> r == Raised(NoForwardSlash) && unchanged(this)
      ensures '/' in outputDir ==> branches == old(branches)
      ensures '/' in outputDir && listing.None? ==>
        && r == Raised(NoGitOutput) && current == old(current)
        && fs == CreateDir(old(fs), NormPath(outputDir))
        && log == old(log) + [BRANCH_LIST_LONG]
      ensures '/' in outputDir && listing.Some? && RStrip(descriptor, '/') !in Descriptors(listing.value) ==>
        && r == Raised(DescriptorNotFound) && current == old(current)
        && fs == CreateDir(old(fs), NormPath(outputDir))
        && log == old(log) + [BRANCH_LIST_LONG]
      ensures '/' in outputDir && listing.Some? && RStrip(descriptor, '/') in Descriptors(listing.value) ==>
        var name := RStrip(descriptor, '/');
        var out := NormPath(outputDir);
        && r == Done && current == name
        && log == old(log) + [BRANCH_LIST_LONG, CheckoutCommand(name)]
        && fs == CopyIfAbsent(CreateDir(old(fs), out), out, PathJoin(out, name))
    {
      var name := RStrip(descriptor, '/');
      if '/' !in outputDir {
        return Raised(NoForwardSlash);
      }
      var out := NormPath(outputDir);
      fs := CreateDir(fs, out);
      var found := GetDescriptors(listing);
      if found.Failure? {
        return Raised(found.error);
      }
      if name !in found.value {
        return Raised(DescriptorNotFound);
      }
      RunGit(CheckoutCommand(name));
      fs := CopyIfAbsent(fs, out, PathJoin(out, name));
      r := Done;
    }

    /** `merge_branch(branch_name)`: the fixed six-command selective merge into `master`. */
    method MergeBranch(branch: string)
      modifies this
      ensures log == old(log) + MergeCommands(branch)
      ensures current == MERGE_TARGET
      ensures fs == old(fs) && branches == old(branches)
    {
      RunGit(CheckoutCommand(MERGE_TARGET));
      RunGit(["git", "merge", "--no-commit", "--no-ff", branch]);
      RunGit(["git", "reset", "HEAD", "--", "."]);
      RunGit(["git", "checkout", "--", "."]);
      RunGit(["git", "add", "pipelines"]);
      RunGit(CommitCommand("Merged pipelines folder from " + branch + " into master"));
    }

    /** `merge_branches_to_master()`: merge `sample1`, then `sample2`, then push `master`. */
    method MergeBranchesToMaster()
      modifies this
      ensures log == old(log) + MergeCommands("sample1") + MergeCommands("sample2") + [PUSH_MASTER]
      ensures current == MERGE_TARGET
      ensures fs == old(fs) && branches == old(branches)
    {
      var i := 0;
      while i < |SAMPLE_BRANCHES|
        invariant 0 <= i <= |SAMPLE_BRANCHES|
        invariant log == old(log) + MergeAllCommands(SAMPLE_BRANCHES[..i])
        invariant i > 0 ==> current == MERGE_TARGET
        invariant fs == old(fs) && branches == old(branches)
      {
        MergeBranch(SAMPLE_BRANCHES[i]);
        assert SAMPLE_BRANCHES[..i + 1][..i] == SAMPLE_BRANCHES[..i];
        i := i + 1;
      }
      assert SAMPLE_BRANCHES[..2] == SAMPLE_BRANCHES;
      assert MergeAllCommands(SAMPLE_BRANCHES) == MergeCommands("sample1") + MergeCommands("sample2") by {
        assert SAMPLE_BRANCHES[..1] == ["sample1"];
        assert ["sample1"][..0] == [];
      }
      RunGit(PUSH_MASTER);
    }
  }
}

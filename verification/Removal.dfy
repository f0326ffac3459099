/** The removal of a finished job's files beside whatever else happens to its directory: the loops of
    HandleCleanupFiles in internal/handlers/handler_files.go, one file operation at a time. Each thing is
    looked at in one operation and removed in a later one. */
module Removal {
  import opened Sorting
  import opened Wrappers

  type Path = string        // relative to the job directory, with slashes

  datatype Node = File(size: nat, modified: int) | Dir | Symlink | Special

  type Tree = map<Path, Node>

  const MAX_ENTRIES: nat := 10000

  // ---------------------------------------------------------------- trees

  /** The path up to its last slash. */
  function Parent(p: Path): (r: Option<Path>)
    ensures r.Some? ==> |r.value| < |p| && r.value + "/" <= p && '/' !in p[|r.value| + 1..]
    ensures r.None? <==> '/' !in p
  {
    if p == "" then None
    else if p[|p| - 1] == '/' then Some(p[..|p| - 1])
    else
      assert p == p[..|p| - 1] + [p[|p| - 1]];
      Parent(p[..|p| - 1])
  }

  /** Whatever has a parent lies in a directory of the tree. */
  predicate WellFormed(t: Tree) {
    forall p :: p in t && Parent(p).Some? ==> Parent(p).value in t && t[Parent(p).value].Dir?
  }

  /** A file, or a directory that is empty. */
  predicate Removable(t: Tree, p: Path) {
    p in t && forall q :: q in t ==> Parent(q) != Some(p)
  }

  lemma RemovalKeepsWellFormed(t: Tree, p: Path)
    requires WellFormed(t) && Removable(t, p)
    ensures WellFormed(t - {p})
  {
  }

  ghost predicate OnlyDirectories(t: Tree) {
    forall p :: p in t ==> t[p].Dir?
  }

  datatype Retained = Retained(name: Path, size: nat, modified: int)

  function Bytes(files: seq<Retained>): nat {
    if files == [] then 0 else Bytes(files[..|files| - 1]) + files[|files| - 1].size
  }

  function Names(files: seq<Retained>): set<Path> {
    set r | r in files :: r.name
  }

  /** The entry of a regular file. */
  predicate Describes(r: Retained, t: Tree) {
    r.name in t && t[r.name] == File(r.size, r.modified)
  }

  ghost predicate Distinct(order: seq<Path>) {
    forall i, j :: 0 <= i < j < |order| ==> order[i] != order[j]
  }

  ghost predicate OrderOf(order: seq<Path>, t: Tree) {
    Distinct(order) && forall p :: p in order <==> p in t
  }

  const DEEPEST_FIRST: (Path, Path) -> bool := (a: Path, b: Path) => |a| > |b|

  datatype Reply =
    | Removed(count: nat, bytes: nat)
    | Changed           // 409: the files are not the confirmed ones, or not the expected ones any more
    | Failed            // 500: an operation failed

  // ---------------------------------------------------------------- steps

  /** What others make of the directory, and whether its name still denotes the one that was opened. */
  datatype Change = Change(tree: Tree, same: bool)

  datatype Phase =
    | Files(index: nat, checked: bool)
    | Listing
    | Directories(order: seq<Path>, index: nat)
    | Folder(checked: bool)
    | Over(reply: Reply)

  /** `list` are the confirmed files, `tree` the contents of the opened directory until it is removed. */
  datatype State = State(
    list: seq<Retained>, tree: Tree, present: bool, same: bool, removed: set<Path>, phase: Phase)

  /** `fault` is an operation that fails of its own accord. */
  datatype Step =
    | Other(change: Option<Change>)             // other processes
    | CheckFile(fault: bool)                    // Lstat
    | RemoveFile(fault: bool)
    | FilesDone
    | Walk(order: Option<seq<Path>>, fault: bool)   // the second walk and the sort; None is an error
    | RemoveDirectory(fault: bool)
    | DirectoriesDone
    | CheckFolder(fault: bool)
    | RemoveFolder(fault: bool)

  ghost predicate Enabled(s: State, step: Step) {
    match step
    case Other(_) => true
    case CheckFile(_) => s.phase.Files? && s.phase.index < |s.list| && !s.phase.checked
    case RemoveFile(_) => s.phase.Files? && s.phase.index < |s.list| && s.phase.checked
    case FilesDone => s.phase.Files? && s.phase.index == |s.list|
    case Walk(order, fault) =>
      s.phase.Listing? &&
      if order.None? then fault || !OnlyDirectories(s.tree) || |s.tree| > MAX_ENTRIES
      else OnlyDirectories(s.tree) && OrderOf(order.value, s.tree) && Arranged(order.value, DEEPEST_FIRST)
    case RemoveDirectory(_) => s.phase.Directories? && s.phase.index < |s.phase.order|
    case DirectoriesDone => s.phase.Directories? && s.phase.index == |s.phase.order|
    case CheckFolder(_) => s.phase.Folder? && !s.phase.checked
    case RemoveFolder(_) => s.phase.Folder? && s.phase.checked
  }

  function Apply(s: State, step: Step): State
    requires Enabled(s, step)
  {
    match step
    case Other(change) =>
      if change.Some? && s.present && WellFormed(change.value.tree)
      then s.(tree := change.value.tree, same := change.value.same) else s
    case CheckFile(fault) =>
      s.(phase := if fault || !Describes(s.list[s.phase.index], s.tree) then Over(Changed) else Files(s.phase.index, true))
    case RemoveFile(fault) =>
      var name := s.list[s.phase.index].name;
      if fault || !Removable(s.tree, name) then s.(phase := Over(Failed))
      else s.(tree := s.tree - {name}, removed := s.removed + {name}, phase := Files(s.phase.index + 1, false))
    case FilesDone => s.(phase := if s.present then Listing else Over(Removed(|s.list|, Bytes(s.list))))
    case Walk(order, _) => s.(phase := if order.None? then Over(Changed) else Directories(order.value, 0))
    case RemoveDirectory(fault) =>
      var name := s.phase.order[s.phase.index];
      if fault || !Removable(s.tree, name) then s.(phase := Over(Failed))
      else s.(tree := s.tree - {name}, phase := Directories(s.phase.order, s.phase.index + 1))
    case DirectoriesDone => s.(phase := Folder(false))
    case CheckFolder(fault) => s.(phase := if fault || !s.same then Over(Changed) else Folder(true))
    case RemoveFolder(fault) =>
      if fault || (s.same && s.tree != map[]) then s.(phase := Over(Failed))
      else s.(tree := map[], present := false, phase := Over(Removed(|s.list|, Bytes(s.list))))
  }

  ghost predicate Init(s: State) {
    && WellFormed(s.tree) && (!s.present ==> s.tree == map[])
    && s.removed == {} && s.phase == Files(0, false)
    && forall i, j :: 0 <= i < j < |s.list| ==> s.list[i].name != s.list[j].name
  }

  ghost predicate StepAt(run: seq<State>, steps: seq<Step>, i: nat) {
    i < |steps| && i + 1 < |run| ==> Enabled(run[i], steps[i]) && run[i + 1] == Apply(run[i], steps[i])
  }

  ghost predicate IsRun(run: seq<State>, steps: seq<Step>) {
    |run| == |steps| + 1 && Init(run[0]) && forall i: nat :: StepAt(run, steps, i)
  }

  lemma Extended(run: seq<State>, steps: seq<Step>, step: Step)
    requires IsRun(run, steps) && Enabled(run[|run| - 1], step)
    ensures IsRun(run + [Apply(run[|run| - 1], step)], steps + [step])
  {
    hide Enabled, Apply, Init;
    var longer, more := run + [Apply(run[|run| - 1], step)], steps + [step];
    forall i: nat
      ensures StepAt(longer, more, i)
    {
      assert StepAt(run, steps, i);
    }
  }

  // ---------------------------------------------------------------- the reply

  ghost predicate Inv(s: State) {
    && WellFormed(s.tree) && (!s.present ==> s.tree == map[])
    && Counted(s)
  }

  /** What has been removed when the steps have come to some point. */
  ghost predicate Counted(s: State) {
    match s.phase
    case Files(index, _) => index <= |s.list| && s.removed == Names(s.list[..index])
    case Directories(order, index) => index <= |order| && Distinct(order) && s.removed == Names(s.list)
    case Over(reply) =>
      && s.removed <= Names(s.list)
      && (reply.Removed? ==> s.removed == Names(s.list) && !s.present && reply == Removed(|s.list|, Bytes(s.list)))
    case _ => s.removed == Names(s.list)
  }

  lemma InvStep(s: State, step: Step)
    requires Inv(s) && Enabled(s, step)
    ensures Inv(Apply(s, step)) && Apply(s, step).list == s.list
  {
    TreeStep(s, step);
    CountStep(s, step);
  }

  lemma TreeStep(s: State, step: Step)
    requires Enabled(s, step) && WellFormed(s.tree) && (!s.present ==> s.tree == map[])
    ensures var s' := Apply(s, step); WellFormed(s'.tree) && (!s'.present ==> s'.tree == map[])
  {
    hide Arranged, OrderOf, Describes, Bytes, OnlyDirectories;
    hide WellFormed, Removable;
    match step {
      case RemoveFile(_) => KeepsWellFormed(s.tree, s.list[s.phase.index].name);
      case RemoveDirectory(_) => KeepsWellFormed(s.tree, s.phase.order[s.phase.index]);
      case RemoveFolder(_) => EmptyIsWellFormed();
      case _ =>
    }
  }

  lemma CountStep(s: State, step: Step)
    requires Enabled(s, step) && Counted(s)
    ensures Counted(Apply(s, step)) && Apply(s, step).list == s.list
  {
    hide Arranged, Describes, Bytes, OnlyDirectories, WellFormed, Removable, Distinct, Names;
    match step {
      case CheckFile(_) => SomeNames(s.list, s.phase.index);
      case RemoveFile(_) =>
        SomeNames(s.list, s.phase.index);
        OneMoreName(s.list, s.phase.index);
      case FilesDone => assert s.list[..|s.list|] == s.list;
      case _ =>
    }
  }

  lemma SomeNames(list: seq<Retained>, i: nat)
    requires i <= |list|
    ensures Names(list[..i]) <= Names(list)
  {
  }

  lemma OneMoreName(list: seq<Retained>, i: nat)
    requires i < |list|
    ensures Names(list[..i + 1]) == Names(list[..i]) + {list[i].name}
  {
    assert list[..i + 1] == list[..i] + [list[i]];
  }

  lemma KeepsWellFormed(t: Tree, p: Path)
    requires WellFormed(t)
    ensures Removable(t, p) ==> WellFormed(t - {p})
  {
    if Removable(t, p) {
      RemovalKeepsWellFormed(t, p);
    }
  }

  lemma EmptyIsWellFormed()
    ensures WellFormed(map[])
  {
  }

  lemma {:induction false} RunKeepsInv(run: seq<State>, steps: seq<Step>, j: nat)
    requires IsRun(run, steps) && j < |run|
    ensures Inv(run[j]) && run[j].list == run[0].list
    decreases j
  {
    if j == 0 {
      assert run[0].list[..0] == [];
    } else {
      hide Inv, Apply, Enabled;
      RunKeepsInv(run, steps, j - 1);
      assert StepAt(run, steps, j - 1);
      InvStep(run[j - 1], steps[j - 1]);
    }
  }

  /** In every run only confirmed names count as removed, and success means that all of them do and that
      nothing is left. */
  lemma SuccessIsComplete(run: seq<State>, steps: seq<Step>, j: nat)
    requires IsRun(run, steps) && j < |run| && run[j].phase.Over?
    ensures run[j].removed <= Names(run[0].list)
    ensures run[j].phase.reply.Removed? ==>
      && run[j].phase.reply == Removed(|run[0].list|, Bytes(run[0].list)) && run[j].removed == Names(run[0].list)
      && !run[j].present && run[j].tree == map[]
  {
    RunKeepsInv(run, steps, j);
  }

  // ---------------------------------------------------------------- what is removed

  /** What an operation is about: a path in the directory, or the directory's own name. */
  datatype Target = At(path: Path) | Root

  /** What is there: nothing, a node, or under the directory's name the directory that was opened. */
  function View(s: State, target: Target): Option<Node> {
    match target
    case At(p) => if p in s.tree then Some(s.tree[p]) else None
    case Root => if s.same then Some(Dir) else None
  }

  /** The thing that a step removes, if it succeeds, and what it is meant to be. */
  function Aim(s: State, step: Step): Option<(Target, Node)>
    requires Enabled(s, step)
  {
    match step
    case RemoveFile(_) => var r := s.list[s.phase.index]; Some((At(r.name), File(r.size, r.modified)))
    case RemoveDirectory(_) => Some((At(s.phase.order[s.phase.index]), Dir))
    case RemoveFolder(_) => Some((Root, Dir))
    case _ => None
  }

  /** The step removes that thing. */
  predicate Removes(s: State, step: Step)
    requires Enabled(s, step)
  {
    Aim(s, step).Some? && (Apply(s, step).phase.Over? ==> Apply(s, step).phase.reply.Removed?)
  }

  /** It is a confirmed file, a listed directory or the opened directory itself. */
  predicate AsConfirmed(s: State, step: Step)
    requires Enabled(s, step) && Aim(s, step).Some?
  {
    View(s, Aim(s, step).value.0) == Some(Aim(s, step).value.1)
  }

  /** The last change that others have made to it between two steps has left something else there than
      there was. */
  ghost predicate Replaced(run: seq<State>, steps: seq<Step>, i: nat, j: nat, target: Target)
    requires j < |run| && j <= |steps|
  {
    exists k: nat ::
      && i < k < j && steps[k].Other? && View(run[k + 1], target) != View(run[i], target)
      && forall n :: k < n < j ==> View(run[n + 1], target) == View(run[n], target)
  }

  /** The directory's own removal steps leave a target alone from i to j. */
  ghost predicate LeftAlone(run: seq<State>, steps: seq<Step>, i: nat, j: nat, target: Target) {
    forall k :: i <= k < j && k + 1 < |run| && k < |steps| && !steps[k].Other? ==> View(run[k + 1], target) == View(run[k], target)
  }

  lemma ReplacedIff(run: seq<State>, steps: seq<Step>, i: nat, j: nat, target: Target)
    requires i < j < |run| && j <= |steps| && LeftAlone(run, steps, i, j, target) && !steps[i].Other?
    ensures View(run[j], target) != View(run[i], target) <==> Replaced(run, steps, i, j, target)
  {
    hide View;
    if View(run[j], target) != View(run[i], target) {
      assert View(run[i + 1], target) == View(run[i], target);
      var k := LastChange(run, i, j, target);
      assert Replaced(run, steps, i, j, target);
    } else if Replaced(run, steps, i, j, target) {
      UnchangedFrom(run, steps, i, j, target);
    }
  }

  lemma {:induction false} LastChange(run: seq<State>, i: nat, j: nat, target: Target) returns (k: nat)
    requires i <= j < |run| && View(run[j], target) != View(run[i], target)
    ensures i <= k < j && View(run[k + 1], target) != View(run[k], target) && View(run[k + 1], target) == View(run[j], target)
    ensures forall n :: k < n < j ==> View(run[n + 1], target) == View(run[n], target)
    decreases j
  {
    hide View;
    if View(run[j - 1], target) != View(run[j], target) {
      k := j - 1;
    } else {
      k := LastChange(run, i, j - 1, target);
    }
  }

  /** What was put there last is there. */
  lemma UnchangedFrom(run: seq<State>, steps: seq<Step>, i: nat, j: nat, target: Target)
    requires i < j < |run| && j <= |steps| && Replaced(run, steps, i, j, target)
    ensures View(run[j], target) != View(run[i], target)
  {
    var k: nat :| i < k < j && steps[k].Other? && View(run[k + 1], target) != View(run[i], target)
      && forall n :: k < n < j ==> View(run[n + 1], target) == View(run[n], target);
    StillThere(run, k + 1, j, target);
  }

  lemma {:induction false} StillThere(run: seq<State>, k: nat, j: nat, target: Target)
    requires k <= j < |run| && forall n :: k <= n < j ==> View(run[n + 1], target) == View(run[n], target)
    ensures View(run[j], target) == View(run[k], target)
    decreases j
  {
    if k < j {
      StillThere(run, k, j - 1, target);
    }
  }

  /** The step in which a file, a directory or the job directory was looked at before it is removed. */
  ghost predicate Checks(step: Step, removal: Step) {
    || (step.CheckFile? && removal.RemoveFile?)
    || (step.Walk? && removal.RemoveDirectory?)
    || (step.CheckFolder? && removal.RemoveFolder?)
  }

  lemma {:induction false} FileChecked(run: seq<State>, steps: seq<Step>, j: nat) returns (i: nat)
    requires IsRun(run, steps) && j < |run| && run[j].phase.Files? && run[j].phase.checked
    ensures i < j && steps[i].CheckFile? && run[j].phase.index < |run[j].list|
    ensures Describes(run[j].list[run[j].phase.index], run[i].tree)
    ensures forall k :: i < k < j ==> steps[k].Other?
    ensures run[i + 1].tree == run[i].tree
    decreases j
  {
    assert StepAt(run, steps, j - 1);
    if steps[j - 1].CheckFile? {
      i := j - 1;
    } else {
      i := FileChecked(run, steps, j - 1);
    }
  }

  /** The directories from `index` on are still to come. */
  ghost predicate Ahead(phase: Phase, p: Path) {
    phase.Directories? && phase.index <= |phase.order| && Distinct(phase.order) && p in phase.order[phase.index..]
  }

  lemma DirectoryStep(s: State, step: Step, p: Path)
    requires Enabled(s, step) && Ahead(Apply(s, step).phase, p) && !step.Walk?
    ensures Ahead(s.phase, p)
    ensures !step.Other? ==> View(Apply(s, step), At(p)) == View(s, At(p))
  {
    hide Arranged, OnlyDirectories, OrderOf, Removable, WellFormed, Describes, Distinct;
    if step.RemoveDirectory? {
      ComesLater(s.phase.order, s.phase.index, p);
    }
  }

  lemma ComesLater(order: seq<Path>, index: nat, p: Path)
    requires index < |order| && Distinct(order) && p in order[index + 1..]
    ensures p in order[index..] && p != order[index]
  {
    var k :| 0 <= k < |order[index + 1..]| && order[index + 1..][k] == p;
    assert order[index + 1 + k] == p && order[index..][k + 1] == p;
  }

  lemma {:induction false} DirectoryChecked(run: seq<State>, steps: seq<Step>, j: nat, p: Path) returns (i: nat)
    requires IsRun(run, steps) && j < |run| && Ahead(run[j].phase, p)
    ensures i < j && steps[i].Walk? && View(run[i], At(p)) == Some(Dir)
    ensures LeftAlone(run, steps, i, j, At(p))
    decreases j
  {
    hide Ahead, Arranged;
    AheadMeans(run[j].phase, p);
    assert StepAt(run, steps, j - 1);
    if steps[j - 1].Walk? {
      i := j - 1;
    } else {
      hide Enabled, Apply, View;
      DirectoryStep(run[j - 1], steps[j - 1], p);
      i := DirectoryChecked(run, steps, j - 1, p);
    }
  }

  lemma AheadMeans(phase: Phase, p: Path)
    requires Ahead(phase, p)
    ensures phase.Directories? && p in phase.order
  {
  }

  lemma {:induction false} FolderChecked(run: seq<State>, steps: seq<Step>, j: nat) returns (i: nat)
    requires IsRun(run, steps) && j < |run| && run[j].phase == Folder(true)
    ensures i < j && steps[i].CheckFolder? && run[i].same
    ensures forall k :: i < k < j ==> steps[k].Other?
    ensures run[i + 1].same
    decreases j
  {
    assert StepAt(run, steps, j - 1);
    if steps[j - 1].CheckFolder? {
      i := j - 1;
    } else {
      i := FolderChecked(run, steps, j - 1);
    }
  }

  /** Over every run: what a step removes was looked at before, and it is a confirmed file, a listed
      directory or the opened job directory exactly if nobody has replaced it since. */
  lemma RemovesConfirmedIff(run: seq<State>, steps: seq<Step>, j: nat) returns (i: nat)
    requires IsRun(run, steps) && j < |steps| && Enabled(run[j], steps[j]) && Removes(run[j], steps[j])
    ensures i < j && Checks(steps[i], steps[j])
    ensures View(run[i], Aim(run[j], steps[j]).value.0) == Some(Aim(run[j], steps[j]).value.1)
    ensures AsConfirmed(run[j], steps[j]) <==> !Replaced(run, steps, i, j, Aim(run[j], steps[j]).value.0)
  {
    var target, node := Aim(run[j], steps[j]).value.0, Aim(run[j], steps[j]).value.1;
    match steps[j] {
      case RemoveFile(_) => i := FileChecked(run, steps, j);
      case RemoveDirectory(_) =>
        RunKeepsInv(run, steps, j);
        assert run[j].phase.order[run[j].phase.index..][0] == target.path;
        i := DirectoryChecked(run, steps, j, target.path);
      case RemoveFolder(_) => i := FolderChecked(run, steps, j);
    }
    assert View(run[i], target) == Some(node);
    ReplacedIff(run, steps, i, j, target);
  }

  /** Apart from what others do, nothing leaves the directory but what a step aims at and removes; the last
      of them takes the job directory itself. */
  lemma NothingElseGoes(s: State, step: Step)
    requires Enabled(s, step) && !step.Other?
    ensures var s' := Apply(s, step);
      if Removes(s, step) then
        var target := Aim(s, step).value.0;
        if target.Root? then s'.tree == map[] && !s'.present && (s.same ==> s.tree == map[])
        else Removable(s.tree, target.path) && s'.tree == s.tree - {target.path} && s'.present == s.present
      else s'.tree == s.tree && s'.present == s.present
  {
  }

  // ---------------------------------------------------------------- failing runs

  /** The last step removes a file that nobody has confirmed, and nothing was confirmed. */
  ghost predicate LosesFile(run: seq<State>, steps: seq<Step>, p: Path, file: Node) {
    && IsRun(run, steps) && steps != [] && run[0].list == []
    && var s, step := run[|run| - 2], steps[|steps| - 1];
      Enabled(s, step) && Removes(s, step) && Aim(s, step).value.0 == At(p) && View(s, At(p)) == Some(file)
  }

  /** Any file that another process puts in the place of an empty directory between the second walk and
      the removal of the directory is removed. */
  lemma FileInPlaceOfDirectory(p: Path, file: Node) returns (run: seq<State>, steps: seq<Step>)
    requires Parent(p).None? && !file.Dir?
    ensures LosesFile(run, steps, p, file)
  {
    var s := State([], map[p := Dir], true, true, {}, Files(0, false));
    run, steps := [s], [];
    assert IsRun(run, steps);
    hide IsRun, Apply, Enabled;
    EmptyDirectory(s, p, file);
    Extended(run, steps, FilesDone);
    run, steps := run + [s.(phase := Listing)], steps + [FilesDone];
    Extended(run, steps, Walk(Some([p]), false));
    run, steps := run + [s.(phase := Directories([p], 0))], steps + [Walk(Some([p]), false)];
    var change := Other(Some(Change(map[p := file], true)));
    Extended(run, steps, change);
    run, steps := run + [s.(tree := map[p := file], phase := Directories([p], 0))], steps + [change];
    FileGoes(run[3], p);
    Extended(run, steps, RemoveDirectory(false));
    run, steps := run + [Apply(run[3], RemoveDirectory(false))], steps + [RemoveDirectory(false)];
  }

  lemma EmptyDirectory(s: State, p: Path, file: Node)
    requires s == State([], map[p := Dir], true, true, {}, Files(0, false)) && Parent(p).None?
    ensures var t, change := s.(phase := Directories([p], 0)), Other(Some(Change(map[p := file], true)));
      && Enabled(s, FilesDone) && Apply(s, FilesDone) == s.(phase := Listing)
      && Enabled(s.(phase := Listing), Walk(Some([p]), false)) && Apply(s.(phase := Listing), Walk(Some([p]), false)) == t
      && Enabled(t, change) && Apply(t, change) == t.(tree := map[p := file])
  {
  }

  lemma FileGoes(s: State, p: Path)
    requires Parent(p).None? && s.tree.Keys == {p} && s.phase == Directories([p], 0)
    ensures Enabled(s, RemoveDirectory(false)) && Removes(s, RemoveDirectory(false))
    ensures Aim(s, RemoveDirectory(false)).value.0 == At(p)
  {
    assert Removable(s.tree, p);
  }

  // ---------------------------------------------------------------- beside others

  /** The steps of others are what these do at their opportunities from one to another. */
  ghost predicate Follows(steps: seq<Step>, others: nat -> Option<Change>, from: nat, to: nat)
    decreases |steps|
  {
    if steps == [] then from == to
    else
      var rest, last := steps[..|steps| - 1], steps[|steps| - 1];
      if last.Other? then from < to && last.change == others(to - 1) && Follows(rest, others, from, to - 1)
      else Follows(rest, others, from, to)
  }

  /** A run from some state on and from some opportunity of the others on. */
  datatype Trace = Trace(run: seq<State>, steps: seq<Step>, start: State, from: nat)

  ghost predicate Leads(t: Trace, s: State, others: nat -> Option<Change>, now: nat) {
    && IsRun(t.run, t.steps) && t.run[0] == t.start && t.run[|t.run| - 1] == s
    && t.from <= now && Follows(t.steps, others, t.from, now)
  }

  predicate IsFault(step: Step) {
    match step
    case CheckFile(fault) => fault
    case RemoveFile(fault) => fault
    case Walk(_, fault) => fault
    case RemoveDirectory(fault) => fault
    case CheckFolder(fault) => fault
    case RemoveFolder(fault) => fault
    case _ => false
  }

  /** No operation has failed of its own accord. */
  ghost predicate Faultless(t: Trace) {
    forall step :: step in t.steps ==> !IsFault(step)
  }

  function Begun(s: State, now: nat): Trace {
    Trace([s], [], s, now)
  }

  lemma BegunLeads(s: State, others: nat -> Option<Change>, now: nat)
    requires Init(s)
    ensures Leads(Begun(s, now), s, others, now) && Faultless(Begun(s, now))
  {
  }

  function Longer(t: Trace, s: State, step: Step): Trace {
    t.(run := t.run + [s], steps := t.steps + [step])
  }

  /** One step more. */
  lemma Advance(t: Trace, s: State, others: nat -> Option<Change>, now: nat, step: Step)
    requires Leads(t, s, others, now) && Enabled(s, step) && (step.Other? ==> step.change == others(now))
    ensures Leads(Longer(t, Apply(s, step), step), Apply(s, step), others, if step.Other? then now + 1 else now)
    ensures Faultless(t) && !IsFault(step) ==> Faultless(Longer(t, Apply(s, step), step))
  {
    hide Enabled, Apply;
    Extended(t.run, t.steps, step);
    var more := t.steps + [step];
    assert Follows(more, others, t.from, if step.Other? then now + 1 else now) by {
      assert more[..|more| - 1] == t.steps;
    }
  }

  ghost predicate Extends(more: Trace, t: Trace) {
    more.start == t.start && more.from == t.from
  }

  lemma TraceOther(t: Trace, s: State, others: nat -> Option<Change>, now: nat) returns (more: Trace)
    requires Leads(t, s, others, now)
    ensures Extends(more, t) && Leads(more, Apply(s, Other(others(now))), others, now + 1)
    ensures Faultless(t) ==> Faultless(more)
  {
    hide Leads, Apply, Faultless;
    Advance(t, s, others, now, Other(others(now)));
    more := Longer(t, Apply(s, Other(others(now))), Other(others(now)));
  }

  /** A step that leads to a given state. */
  lemma TraceStep(t: Trace, s: State, others: nat -> Option<Change>, now: nat, step: Step, s': State) returns (more: Trace)
    requires Leads(t, s, others, now) && !step.Other? && Enabled(s, step) && Apply(s, step) == s'
    ensures Extends(more, t) && Leads(more, s', others, now)
    ensures Faultless(t) && !IsFault(step) ==> Faultless(more)
  {
    hide Leads, Apply, Enabled, Faultless, IsFault;
    Advance(t, s, others, now, step);
    more := Longer(t, s', step);
  }

  lemma TraceCheckFile(t: Trace, s: State, others: nat -> Option<Change>, now: nat, ok: bool) returns (more: Trace)
    requires Leads(t, s, others, now) && s.phase.Files? && s.phase.index < |s.list| && !s.phase.checked
    requires ok ==> Describes(s.list[s.phase.index], s.tree)
    ensures Extends(more, t) && (Faultless(t) && (ok || !Describes(s.list[s.phase.index], s.tree)) ==> Faultless(more))
    ensures Leads(more, s.(phase := if ok then Files(s.phase.index, true) else Over(Changed)), others, now)
  {
    hide Leads, Faultless;
    var fault := !ok && Describes(s.list[s.phase.index], s.tree);
    more := TraceStep(t, s, others, now, CheckFile(fault), s.(phase := if ok then Files(s.phase.index, true) else Over(Changed)));
  }

  lemma TraceRemoveFile(t: Trace, s: State, others: nat -> Option<Change>, now: nat, ok: bool) returns (more: Trace)
    requires Leads(t, s, others, now) && s.phase.Files? && s.phase.index < |s.list| && s.phase.checked
    requires ok ==> Removable(s.tree, s.list[s.phase.index].name)
    ensures Extends(more, t) && (Faultless(t) && (ok || !Removable(s.tree, s.list[s.phase.index].name)) ==> Faultless(more))
    ensures var name := s.list[s.phase.index].name;
      Leads(more, if ok then s.(tree := s.tree - {name}, removed := s.removed + {name}, phase := Files(s.phase.index + 1, false))
                  else s.(phase := Over(Failed)), others, now)
  {
    hide Leads, Removable, Faultless;
    var step := RemoveFile(!ok && Removable(s.tree, s.list[s.phase.index].name));
    more := TraceStep(t, s, others, now, step, Apply(s, step));
  }

  lemma TraceFilesDone(t: Trace, s: State, others: nat -> Option<Change>, now: nat) returns (more: Trace)
    requires Leads(t, s, others, now) && s.phase.Files? && s.phase.index == |s.list|
    ensures Extends(more, t) && (Faultless(t) ==> Faultless(more))
    ensures Leads(more, s.(phase := if s.present then Listing else Over(Removed(|s.list|, Bytes(s.list)))), others, now)
  {
    hide Leads, Bytes, Faultless;
    more := TraceStep(t, s, others, now, FilesDone, Apply(s, FilesDone));
  }

  lemma TraceWalk(t: Trace, s: State, others: nat -> Option<Change>, now: nat, order: Option<seq<Path>>) returns (more: Trace)
    requires Leads(t, s, others, now) && s.phase.Listing?
    requires order.Some? ==> OnlyDirectories(s.tree) && OrderOf(order.value, s.tree) && Arranged(order.value, DEEPEST_FIRST)
    ensures Extends(more, t)
    ensures Faultless(t) && (order.Some? || !OnlyDirectories(s.tree) || |s.tree| > MAX_ENTRIES) ==> Faultless(more)
    ensures Leads(more, s.(phase := if order.None? then Over(Changed) else Directories(order.value, 0)), others, now)
  {
    hide Leads, OnlyDirectories, OrderOf, Arranged, Faultless;
    var step := Walk(order, order.None? && OnlyDirectories(s.tree) && |s.tree| <= MAX_ENTRIES);
    more := TraceStep(t, s, others, now, step, Apply(s, step));
  }

  lemma TraceRemoveDirectory(t: Trace, s: State, others: nat -> Option<Change>, now: nat, ok: bool) returns (more: Trace)
    requires Leads(t, s, others, now) && s.phase.Directories? && s.phase.index < |s.phase.order|
    requires ok ==> Removable(s.tree, s.phase.order[s.phase.index])
    ensures Extends(more, t) && (Faultless(t) && (ok || !Removable(s.tree, s.phase.order[s.phase.index])) ==> Faultless(more))
    ensures var p := s.phase;
      Leads(more, if ok then s.(tree := s.tree - {p.order[p.index]}, phase := Directories(p.order, p.index + 1))
                  else s.(phase := Over(Failed)), others, now)
  {
    hide Leads, Removable, Faultless;
    var step := RemoveDirectory(!ok && Removable(s.tree, s.phase.order[s.phase.index]));
    more := TraceStep(t, s, others, now, step, Apply(s, step));
  }

  lemma TraceCheckFolder(t: Trace, s: State, others: nat -> Option<Change>, now: nat, ok: bool) returns (more: Trace)
    requires Leads(t, s, others, now) && s.phase.Directories? && s.phase.index == |s.phase.order| && (ok ==> s.same)
    ensures Extends(more, t) && (Faultless(t) && (ok || !s.same) ==> Faultless(more))
    ensures Leads(more, s.(phase := if ok then Folder(true) else Over(Changed)), others, now)
  {
    hide Leads, Faultless;
    more := TraceStep(t, s, others, now, DirectoriesDone, s.(phase := Folder(false)));
    more := TraceStep(more, s.(phase := Folder(false)), others, now, CheckFolder(!ok && s.same),
                      s.(phase := if ok then Folder(true) else Over(Changed)));
  }

  lemma TraceRemoveFolder(t: Trace, s: State, others: nat -> Option<Change>, now: nat, ok: bool) returns (more: Trace)
    requires Leads(t, s, others, now) && s.phase == Folder(true) && (ok ==> !s.same || s.tree == map[])
    ensures Extends(more, t) && (Faultless(t) && (ok || (s.same && s.tree != map[])) ==> Faultless(more))
    ensures Leads(more, if ok then s.(tree := map[], present := false, phase := Over(Removed(|s.list|, Bytes(s.list))))
                        else s.(phase := Over(Failed)), others, now)
  {
    hide Leads, Bytes, Faultless;
    var step := RemoveFolder(!ok && (!s.same || s.tree == map[]));
    more := TraceStep(t, s, others, now, step, Apply(s, step));
  }
}

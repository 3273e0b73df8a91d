/**
 The staged swap of the parity files (tools/vision_c4_golden.py, `write_parity_files`): all new files are installed,
 or every old one is back, whatever single operation of the staging and swap loops fails or is interrupted. The one
 exception is an interrupt between parking an old file and registering its swap.
 */
module ParityFiles {
  import opened Collections

  type Path = string
  type Content(==, !new)
  type Files = map<Path, Content>

  /** A file to install: where it is staged, where it goes, where the old one is parked, and what it holds. */
  datatype Item = Item(tmp: Path, target: Path, backup: Path, content: Content)

  function At(files: Files, p: Path): Option<Content> {
    if p in files then Some(files[p]) else None
  }

  /** No path is used twice. */
  ghost predicate Apart(items: seq<Item>) {
    && (forall i :: 0 <= i < |items| ==>
          items[i].tmp != items[i].target && items[i].tmp != items[i].backup && items[i].target != items[i].backup)
    && (forall i, j :: 0 <= i < |items| && 0 <= j < |items| && i != j ==> Separate(items[i], items[j]))
  }

  predicate Separate(a: Item, b: Item) {
    && a.tmp != b.tmp && a.tmp != b.target && a.tmp != b.backup
    && a.target != b.target && a.target != b.backup && a.backup != b.backup
  }

  predicate Foreign(items: seq<Item>, p: Path) {
    forall i :: 0 <= i < |items| ==> p != items[i].tmp && p != items[i].target && p != items[i].backup
  }

  // ----- how an item can stand

  /** Not staged: target and backup as before. */
  predicate Untouched(was: Files, files: Files, x: Item) {
    At(files, x.target) == At(was, x.target) && At(files, x.backup) == At(was, x.backup)
  }

  /** Staged, the old file in place. */
  predicate Staged(was: Files, files: Files, x: Item) {
    Untouched(was, files, x) && At(files, x.tmp) == Some(x.content)
  }

  /** Installed, the old file parked. */
  predicate Installed(was: Files, files: Files, x: Item) {
    && At(files, x.tmp) == None && At(files, x.target) == Some(x.content)
    && At(files, x.backup) == At(was, x.target)
  }

  /** As before, except that a stale backup may be gone. */
  predicate Restored(was: Files, files: Files, x: Item) {
    && At(files, x.target) == At(was, x.target)
    && (At(files, x.backup) == At(was, x.backup) || At(files, x.backup) == None)
  }

  /** In the middle of its swap: the old file is in place or parked, and nothing else. */
  predicate Between(was: Files, files: Files, x: Item) {
    At(files, x.target) == None && At(files, x.backup) == At(was, x.target)
  }

  /** Of an item that is not registered: as before, or parked without being registered. */
  predicate Left(was: Files, files: Files, x: Item, parked: bool) {
    if parked then x.target in was && Between(was, files, x) else Restored(was, files, x)
  }

  predicate Done(files: Files, x: Item) {
    At(files, x.tmp) == None && At(files, x.target) == Some(x.content) && At(files, x.backup) == None
  }

  predicate Back(was: Files, files: Files, x: Item) {
    At(files, x.tmp) == None && Restored(was, files, x)
  }

  /** Files outside the group are as before. */
  ghost predicate Outside(items: seq<Item>, was: Files, files: Files) {
    forall p :: Foreign(items, p) ==> At(files, p) == At(was, p)
  }

  /** After `n` operations without a failure. */
  predicate Counted(start: Option<nat>, now: Option<nat>, n: nat) {
    (start.None? && now.None?) || (start.Some? && now.Some? && start.value == now.value + n)
  }

  /** The failing operation is not among the next `n`. */
  predicate Spares(failAt: Option<nat>, n: nat) {
    failAt.None? || failAt.value >= n
  }

  /**
   A disk on which the operation with number `failAt` raises, counted from now: before it has any effect on a complete
   file, or, when `late`, because it is interrupted right after its effect.
   */
  class Disk {
    var files: Files
    var failAt: Option<nat>
    const late: bool

    constructor (files: Files, failAt: Option<nat>, late: bool)
      ensures this.files == files && this.failAt == failAt && this.late == late
    {
      this.files, this.failAt, this.late := files, failAt, late;
    }

    /** Counts one operation; true when it is the failing one. */
    method Tick() returns (fails: bool)
      modifies this`failAt
      ensures fails <==> old(failAt) == Some(0)
      ensures if fails then failAt.None? else Counted(old(failAt), failAt, 1)
    {
      fails := failAt == Some(0);
      failAt := if failAt.None? || fails then None else Some(failAt.value - 1);
    }

    /** Writing a file; a failing write may leave any part of it behind, or all of it. */
    method Write(p: Path, content: Content, partial: Option<Content>) returns (ok: bool)
      modifies this
      ensures ok <==> old(failAt) != Some(0)
      ensures if ok then Counted(old(failAt), failAt, 1) else failAt.None?
      ensures At(files, p) == if ok then Some(content) else partial
      ensures forall q :: q != p ==> At(files, q) == At(old(files), q)
    {
      var fails := Tick();
      ok := !fails;
      files := if ok then files[p := content] else if partial.Some? then files[p := partial.value] else files - {p};
    }

    method Remove(p: Path) returns (ok: bool)
      requires p in files
      modifies this
      ensures ok <==> old(failAt) != Some(0)
      ensures if ok then Counted(old(failAt), failAt, 1) else failAt.None?
      ensures files == if ok || late then old(files) - {p} else old(files)
    {
      var fails := Tick();
      ok := !fails;
      files := if ok || late then files - {p} else files;
    }

    /** The atomic rename. */
    method Replace(src: Path, dst: Path) returns (ok: bool)
      requires src in files && src != dst
      modifies this
      ensures ok <==> old(failAt) != Some(0)
      ensures if ok then Counted(old(failAt), failAt, 1) else failAt.None?
      ensures files == if ok || late then (old(files) - {src})[dst := old(files)[src]] else old(files)
    {
      var fails := Tick();
      ok := !fails;
      files := if ok || late then (files - {src})[dst := files[src]] else files;
    }
  }

  // ----- the operations, counted

  function Count(b: bool): nat {
    if b then 1 else 0
  }

  /** Operations of one swap: dropping a stale backup, parking an old file, installing the new one. */
  function OpsOf(was: Files, x: Item): nat {
    Count(x.backup in was) + Count(x.target in was) + 1
  }

  /** Operations of the export up to the swap of item `n`: all files are staged first. */
  function OpsBefore(was: Files, items: seq<Item>, n: nat): nat
    requires n <= |items|
  {
    if n == 0 then |items| else OpsBefore(was, items, n - 1) + OpsOf(was, items[n - 1])
  }

  /** The failing operation is the one that parks the old file of item `i`. */
  predicate FailsAtParking(was: Files, items: seq<Item>, i: nat, failAt: Option<nat>)
    requires i < |items|
  {
    items[i].target in was && failAt == Some(OpsBefore(was, items, i) + Count(items[i].backup in was))
  }

  /** An interrupt comes right after an old file was parked, before its swap is registered. */
  ghost predicate InterruptsParking(was: Files, items: seq<Item>, failAt: Option<nat>, late: bool) {
    late && exists i: nat :: i < |items| && FailsAtParking(was, items, i, failAt)
  }

  lemma {:induction false} OpsGrow(was: Files, items: seq<Item>, i: nat, j: nat)
    requires i <= j <= |items|
    ensures OpsBefore(was, items, i) <= OpsBefore(was, items, j)
  {
    if i < j {
      OpsGrow(was, items, i, j - 1);
    }
  }

  /** An operation of one swap is none of another. */
  lemma OtherSwapParks(was: Files, items: seq<Item>, i: nat, j: nat, failAt: nat)
    requires i < |items| && j < |items| && FailsAtParking(was, items, j, Some(failAt))
    requires OpsBefore(was, items, i) <= failAt < OpsBefore(was, items, i + 1)
    ensures i == j
  {
    if i < j {
      OpsGrow(was, items, i + 1, j);
    } else if j < i {
      OpsGrow(was, items, j + 1, i);
    }
  }

  // ----- one item at a time

  /** Nothing but the item's own three paths has changed. */
  ghost predicate OnlyItem(before: Files, after: Files, x: Item) {
    forall q :: q != x.tmp && q != x.target && q != x.backup ==> At(after, q) == At(before, q)
  }

  predicate SameItem(before: Files, after: Files, x: Item) {
    && At(after, x.tmp) == At(before, x.tmp) && At(after, x.target) == At(before, x.target)
    && At(after, x.backup) == At(before, x.backup)
  }

  /** Stages all files; stops at the first failure. */
  method Stage(disk: Disk, items: seq<Item>, partial: Option<Content>) returns (ok: bool)
    requires Apart(items)
    modifies disk
    ensures ok <==> Spares(old(disk.failAt), |items|)
    ensures if ok then Counted(old(disk.failAt), disk.failAt, |items|) else disk.failAt.None?
    ensures ok ==> forall i :: 0 <= i < |items| ==> Staged(old(disk.files), disk.files, items[i])
    ensures !ok ==> forall i :: 0 <= i < |items| ==> Untouched(old(disk.files), disk.files, items[i])
    ensures Outside(items, old(disk.files), disk.files)
  {
    ghost var was := disk.files;
    for i := 0 to |items|
      invariant Counted(old(disk.failAt), disk.failAt, i)
      invariant forall j :: 0 <= j < i ==> Staged(was, disk.files, items[j])
      invariant forall j :: 0 <= j < |items| ==> Untouched(was, disk.files, items[j])
      invariant Outside(items, was, disk.files)
    {
      ghost var before := disk.files;
      ok := disk.Write(items[i].tmp, items[i].content, partial);
      if !ok {
        return;
      }
    }
    ok := true;
  }

  /**
   Swaps one staged file in: drops a stale backup, parks the old file, registers the swap, installs the new one.
   */
  method SwapOne(disk: Disk, x: Item, ghost was: Files) returns (ok: bool, registered: bool, hadOld: bool)
    requires x.tmp != x.target && x.tmp != x.backup && x.target != x.backup
    requires Staged(was, disk.files, x)
    modifies disk
    ensures OnlyItem(old(disk.files), disk.files, x)
    ensures ok <==> Spares(old(disk.failAt), OpsOf(was, x))
    ensures if ok then Counted(old(disk.failAt), disk.failAt, OpsOf(was, x)) else disk.failAt.None?
    ensures ok ==> registered && Installed(was, disk.files, x)
    ensures !ok ==>
              var parking := x.target in was && old(disk.failAt) == Some(Count(x.backup in was));
              if registered then !parking && (Between(was, disk.files, x) || Installed(was, disk.files, x))
              else Left(was, disk.files, x, disk.late && parking)
    ensures registered ==> (hadOld <==> x.target in was)
  {
    registered, hadOld := false, false;
    if x.backup in disk.files {
      ok := disk.Remove(x.backup);
      if !ok {
        return;
      }
    }
    hadOld := x.target in disk.files;
    if hadOld {
      ok := disk.Replace(x.target, x.backup);
      if !ok {
        return;
      }
    }
    registered := true;
    ok := disk.Replace(x.tmp, x.target);
  }

  /**
   Swaps all files in, noting for every registered swap whether there was an old file. `start` is where the whole
   export fails; `parked` is the item whose parking was interrupted.
   */
  method SwapAll(disk: Disk, items: seq<Item>, ghost was: Files, ghost start: Option<nat>)
    returns (ok: bool, swapped: seq<bool>, ghost parked: Option<nat>)
    requires Apart(items) && Outside(items, was, disk.files) && Counted(start, disk.failAt, |items|)
    requires forall i :: 0 <= i < |items| ==> Staged(was, disk.files, items[i])
    modifies disk
    ensures |swapped| <= |items| && Outside(items, was, disk.files)
    ensures forall i :: 0 <= i < |swapped| ==> (swapped[i] <==> items[i].target in was)
    ensures ok <==> Spares(start, OpsBefore(was, items, |items|))
    ensures ok ==>
              && |swapped| == |items| && Counted(start, disk.failAt, OpsBefore(was, items, |items|))
              && forall i :: 0 <= i < |items| ==> Installed(was, disk.files, items[i])
    ensures !ok ==>
              && disk.failAt.None?
              && (forall i :: 0 <= i < |swapped| ==> parked != Some(i) && ToUndo(was, disk.files, items[i]))
              && (forall i :: |swapped| <= i < |items| ==> Left(was, disk.files, items[i], parked == Some(i)))
              && IsParked(was, items, start, disk.late, parked)
  {
    hide OpsBefore, OpsOf, FailsAtParking, IsParked, Apart, Installed, Staged, Left, ToUndo, SameItem, Between;
    OpsAre(was, items, 0);
    swapped, parked := [], None;
    for i := 0 to |items|
      invariant |swapped| == i && Outside(items, was, disk.files)
      invariant Counted(start, disk.failAt, OpsBefore(was, items, i))
      invariant forall j :: 0 <= j < i ==> (swapped[j] <==> items[j].target in was)
      invariant forall j :: 0 <= j < i ==> Installed(was, disk.files, items[j])
      invariant forall j :: i <= j < |items| ==> Staged(was, disk.files, items[j])
    {
      ghost var before, failAt := disk.files, disk.failAt;
      ItemApart(items, i);
      OpsAre(was, items, i);
      var registered, hadOld;
      ok, registered, hadOld := SwapOne(disk, items[i], was);
      OthersStand(was, before, disk.files, items, i);
      OthersStandAs(was, before, disk.files, items, i);
      if registered {
        swapped := swapped + [hadOld];
      }
      if !ok {
        parked := if disk.late && FailsAtParking(was, items, i, start) then Some(i) else None;
        FailsHere(was, items, i, start, failAt);
        FailedStand(was, disk.files, items, i);
        ParkedHere(was, items, i, start.value, disk.late, parked);
        return;
      }
    }
    ok := true;
  }

  lemma ItemApart(items: seq<Item>, i: nat)
    requires Apart(items) && i < |items|
    ensures items[i].tmp != items[i].target && items[i].tmp != items[i].backup && items[i].target != items[i].backup
  {
  }

  lemma OpsAre(was: Files, items: seq<Item>, i: nat)
    requires i <= |items|
    ensures OpsBefore(was, items, 0) == |items|
    ensures i < |items| ==> OpsBefore(was, items, i + 1) == OpsBefore(was, items, i) + OpsOf(was, items[i])
  {
  }

  /** `parked` tells the item whose parking is interrupted. */
  ghost predicate IsParked(was: Files, items: seq<Item>, start: Option<nat>, late: bool, parked: Option<nat>) {
    forall i: nat :: i < |items| ==> (parked == Some(i) <==> late && FailsAtParking(was, items, i, start))
  }

  /** The failing operation is one of the swap of item `i`, in terms of the whole export. */
  lemma FailsHere(was: Files, items: seq<Item>, i: nat, start: Option<nat>, failAt: Option<nat>)
    requires i < |items| && Counted(start, failAt, OpsBefore(was, items, i)) && !Spares(failAt, OpsOf(was, items[i]))
    ensures start.Some? && OpsBefore(was, items, i) <= start.value < OpsBefore(was, items, i + 1)
    ensures !Spares(start, OpsBefore(was, items, |items|))
    ensures FailsAtParking(was, items, i, start) <==>
              items[i].target in was && failAt == Some(Count(items[i].backup in was))
  {
    OpsGrow(was, items, i + 1, |items|);
  }

  lemma ParkedHere(was: Files, items: seq<Item>, i: nat, failAt: nat, late: bool, parked: Option<nat>)
    requires i < |items| && OpsBefore(was, items, i) <= failAt < OpsBefore(was, items, i + 1)
    requires parked == if late && FailsAtParking(was, items, i, Some(failAt)) then Some(i) else None
    ensures IsParked(was, items, Some(failAt), late, parked)
  {
    hide OpsBefore, FailsAtParking;
    forall j: nat | j < |items|
      ensures parked == Some(j) <==> late && FailsAtParking(was, items, j, Some(failAt))
    {
      if FailsAtParking(was, items, j, Some(failAt)) {
        OtherSwapParks(was, items, i, j, failAt);
      }
    }
  }

  /** The other items stand as they did. */
  lemma OthersStandAs(was: Files, before: Files, after: Files, items: seq<Item>, i: nat)
    requires i < |items| && forall j :: 0 <= j < |items| && j != i ==> SameItem(before, after, items[j])
    ensures forall j :: 0 <= j < |items| && j != i && Installed(was, before, items[j]) ==>
              Installed(was, after, items[j])
    ensures forall j :: 0 <= j < |items| && j != i && Staged(was, before, items[j]) ==> Staged(was, after, items[j])
  {
  }

  /** Where a failure leaves the items: swapped ones can be undone, staged ones are as before. */
  lemma FailedStand(was: Files, files: Files, items: seq<Item>, i: nat)
    requires i < |items|
    ensures forall j :: 0 <= j < |items| && Installed(was, files, items[j]) ==> ToUndo(was, files, items[j])
    ensures forall j :: 0 <= j < |items| && Staged(was, files, items[j]) ==> Left(was, files, items[j], false)
    ensures Between(was, files, items[i]) ==> ToUndo(was, files, items[i])
  {
  }

  /** Swapping one item leaves the others as they stand. */
  lemma OthersStand(was: Files, before: Files, after: Files, items: seq<Item>, i: nat)
    requires Apart(items) && i < |items| && OnlyItem(before, after, items[i])
    ensures Outside(items, was, before) ==> Outside(items, was, after)
    ensures forall j :: 0 <= j < |items| && j != i ==> SameItem(before, after, items[j])
  {
    forall j | 0 <= j < |items| && j != i
      ensures SameItem(before, after, items[j])
    {
      assert Separate(items[i], items[j]) && Separate(items[j], items[i]);
    }
  }

  // ----- the way back

  /** Removes what is staged, then undoes the registered swaps, last first. Its operations do not fail. */
  method Rollback(disk: Disk, items: seq<Item>, swapped: seq<bool>, ghost was: Files, ghost parked: Option<nat>)
    requires Apart(items) && |swapped| <= |items| && disk.failAt.None? && Outside(items, was, disk.files)
    requires forall i :: 0 <= i < |swapped| ==> (swapped[i] <==> items[i].target in was)
    requires forall i :: 0 <= i < |swapped| ==> parked != Some(i) && ToUndo(was, disk.files, items[i])
    requires forall i :: |swapped| <= i < |items| ==> Left(was, disk.files, items[i], parked == Some(i))
    modifies disk
    ensures forall i :: 0 <= i < |items| ==>
              At(disk.files, items[i].tmp) == None && Left(was, disk.files, items[i], parked == Some(i))
    ensures Outside(items, was, disk.files)
  {
    RemoveStaged(disk, items, |swapped|, was, parked);
    var k: nat := |swapped|;
    while k > 0
      invariant k <= |swapped| && disk.failAt.None? && Outside(items, was, disk.files)
      invariant forall j :: 0 <= j < |items| ==> At(disk.files, items[j].tmp) == None
      invariant forall j :: 0 <= j < k ==> ToUndo(was, disk.files, items[j])
      invariant forall j :: k <= j < |items| ==> Left(was, disk.files, items[j], parked == Some(j))
    {
      k := k - 1;
      ghost var before := disk.files;
      assert ToUndo(was, disk.files, items[k]);
      UndoOne(disk, items[k], swapped[k], was);
      OthersStand(was, before, disk.files, items, k);
    }
  }

  /** The old file is parked, if there was one; the target is the new file or missing. */
  predicate ToUndo(was: Files, files: Files, x: Item) {
    At(files, x.backup) == At(was, x.target)
  }

  method RemoveStaged(disk: Disk, items: seq<Item>, n: nat, ghost was: Files, ghost parked: Option<nat>)
    requires Apart(items) && n <= |items| && disk.failAt.None? && Outside(items, was, disk.files)
    requires forall i :: 0 <= i < n ==> ToUndo(was, disk.files, items[i])
    requires forall i :: n <= i < |items| ==> Left(was, disk.files, items[i], parked == Some(i))
    modifies disk
    ensures disk.failAt.None? && Outside(items, was, disk.files)
    ensures forall j :: 0 <= j < |items| ==> At(disk.files, items[j].tmp) == None
    ensures forall i :: 0 <= i < n ==> ToUndo(was, disk.files, items[i])
    ensures forall i :: n <= i < |items| ==> Left(was, disk.files, items[i], parked == Some(i))
  {
    for i := 0 to |items|
      invariant disk.failAt.None? && Outside(items, was, disk.files)
      invariant forall j :: 0 <= j < i ==> At(disk.files, items[j].tmp) == None
      invariant forall j :: 0 <= j < n ==> ToUndo(was, disk.files, items[j])
      invariant forall j :: n <= j < |items| ==> Left(was, disk.files, items[j], parked == Some(j))
    {
      ghost var before := disk.files;
      if items[i].tmp in disk.files {
        var ok := disk.Remove(items[i].tmp);
      }
      OthersStand(was, before, disk.files, items, i);
    }
  }

  method UndoOne(disk: Disk, x: Item, hadOld: bool, ghost was: Files)
    requires x.tmp != x.target && x.tmp != x.backup && x.target != x.backup
    requires disk.failAt.None? && ToUndo(was, disk.files, x) && (hadOld <==> x.target in was)
    modifies disk
    ensures disk.failAt.None? && OnlyItem(old(disk.files), disk.files, x)
    ensures Restored(was, disk.files, x) && At(disk.files, x.tmp) == At(old(disk.files), x.tmp)
  {
    var ok;
    if x.target in disk.files {
      ok := disk.Remove(x.target);
    }
    if hadOld && x.backup in disk.files {
      ok := disk.Replace(x.backup, x.target);
    }
  }

  datatype Outcome = AllInstalled | CleanupFailed | RolledBack

  /**
   The whole export. Whatever single operation fails or is interrupted: either every new file is installed, or every
   target has its old content again, or is absent again, and nothing staged is left; other files are never touched.
   There is exactly one exception: an interrupt right after an old file was parked, before the swap is registered,
   leaves that one target missing and its old content in the backup. A failure while dropping the parked files leaves
   those behind.
   */
  method WriteParityFiles(disk: Disk, items: seq<Item>, partial: Option<Content>) returns (r: Outcome)
    requires Apart(items)
    modifies disk
    ensures Outside(items, old(disk.files), disk.files)
    ensures r.RolledBack? <==> !Spares(old(disk.failAt), OpsBefore(old(disk.files), items, |items|))
    ensures r.RolledBack? ==> forall i :: 0 <= i < |items| ==>
              && At(disk.files, items[i].tmp) == None
              && Left(old(disk.files), disk.files, items[i],
                      disk.late && FailsAtParking(old(disk.files), items, i, old(disk.failAt)))
    ensures r.RolledBack? ==>
              ((forall i :: 0 <= i < |items| ==> Back(old(disk.files), disk.files, items[i])) <==>
               !InterruptsParking(old(disk.files), items, old(disk.failAt), disk.late))
    ensures r.AllInstalled? ==> forall i :: 0 <= i < |items| ==> Done(disk.files, items[i])
    ensures r.CleanupFailed? ==> forall i :: 0 <= i < |items| ==>
              Installed(old(disk.files), disk.files, items[i]) || Done(disk.files, items[i])
    ensures old(disk.failAt).None? ==> r.AllInstalled?
  {
    ghost var was, start := disk.files, disk.failAt;
    OpsGrow(was, items, 0, |items|);
    var ok := Stage(disk, items, partial);
    if !ok {
      NotYetParking(was, items, start, disk.late);
      Rollback(disk, items, [], was, None);
      return RolledBack;
    }
    var swapped;
    ghost var parked;
    ok, swapped, parked := SwapAll(disk, items, was, start);
    if !ok {
      Rollback(disk, items, swapped, was, parked);
      return RolledBack;
    }
    ok := DropParked(disk, items, swapped, was);
    r := if ok then AllInstalled else CleanupFailed;
  }

  /** While files are staged nothing is parked. */
  lemma NotYetParking(was: Files, items: seq<Item>, start: Option<nat>, late: bool)
    requires !Spares(start, |items|)
    ensures IsParked(was, items, start, late, None)
  {
    forall i: nat | i < |items|
      ensures !FailsAtParking(was, items, i, start)
    {
      OpsGrow(was, items, 0, i);
    }
  }

  /** The exception happens: one old file, and an interrupt of the second operation. */
  method InterruptedExport(x: Item, oldContent: Content) returns (disk: Disk, r: Outcome)
    requires x.tmp != x.target && x.tmp != x.backup && x.target != x.backup
    ensures r.RolledBack? && fresh(disk)
    ensures At(disk.files, x.target) == None && At(disk.files, x.backup) == Some(oldContent)
  {
    var files := map[x.target := oldContent];
    disk := new Disk(files, Some(1), true);
    assert OpsBefore(files, [x], 1) == OpsBefore(files, [x], 0) + OpsOf(files, x);
    assert FailsAtParking(files, [x], 0, Some(1));
    r := WriteParityFiles(disk, [x], None);
    assert Left(files, disk.files, [x][0], true);
  }

  method DropParked(disk: Disk, items: seq<Item>, swapped: seq<bool>, ghost was: Files) returns (ok: bool)
    requires Apart(items) && |swapped| == |items| && Outside(items, was, disk.files)
    requires forall i :: 0 <= i < |items| ==> Installed(was, disk.files, items[i])
    requires forall i :: 0 <= i < |items| ==> (swapped[i] <==> items[i].target in was)
    modifies disk
    ensures Outside(items, was, disk.files)
    ensures ok ==> forall i :: 0 <= i < |items| ==> Done(disk.files, items[i])
    ensures forall i :: 0 <= i < |items| ==> Installed(was, disk.files, items[i]) || Done(disk.files, items[i])
    ensures old(disk.failAt).None? ==> ok
  {
    for i := 0 to |items|
      invariant Outside(items, was, disk.files)
      invariant forall j :: 0 <= j < i ==> Done(disk.files, items[j])
      invariant forall j :: i <= j < |items| ==> Installed(was, disk.files, items[j])
      invariant old(disk.failAt).None? ==> disk.failAt.None?
    {
      ghost var before := disk.files;
      if swapped[i] && items[i].backup in disk.files {
        ok := disk.Remove(items[i].backup);
        if !ok {
          return;
        }
      }
    }
    ok := true;
  }

  // ----- the three files of the export

  function ItemAt(path: Path, content: Content): Item {
    Item(path + ".tmp", path, path + ".bak", content)
  }

  function ParityItems(dir: Path, pixels: Content, features: Content, meta: Content): seq<Item> {
    [ItemAt(dir + "/ms_input_pixel.bin", pixels), ItemAt(dir + "/hf_features.bin", features),
     ItemAt(dir + "/parity_meta.json", meta)]
  }

  lemma SuffixesDiffer(path: Path)
    ensures path + ".tmp" != path + ".bak" && path + ".tmp" != path && path + ".bak" != path
  {
    assert (path + ".tmp")[|path| + 1] == 't' && (path + ".bak")[|path| + 1] == 'b';
    assert |path + ".tmp"| == |path| + 4 && |path + ".bak"| == |path| + 4;
  }

  /** Their nine paths are different, in any directory. */
  lemma ParityNamesAreApart(dir: Path, pixels: Content, features: Content, meta: Content)
    ensures Apart(ParityItems(dir, pixels, features, meta))
  {
    hide Separate, Apart;
    var a, b, c := dir + "/ms_input_pixel.bin", dir + "/hf_features.bin", dir + "/parity_meta.json";
    assert |a| == |dir| + 19 && |b| == |dir| + 16 && |c| == |dir| + 17;
    SuffixesDiffer(a);
    SuffixesDiffer(b);
    SuffixesDiffer(c);
    ThreeApart(ItemAt(a, pixels), ItemAt(b, features), ItemAt(c, meta));
  }

  lemma ThreeApart(x: Item, y: Item, z: Item)
    requires forall i :: i in [x, y, z] ==> i.tmp != i.target && i.tmp != i.backup && i.target != i.backup
    requires Separate(x, y) && Separate(x, z) && Separate(y, z) && Separate(y, x) && Separate(z, x) && Separate(z, y)
    ensures Apart([x, y, z])
  {
    var items := [x, y, z];
    forall i, j | 0 <= i < |items| && 0 <= j < |items| && i != j
      ensures Separate(items[i], items[j])
    {
    }
  }
}

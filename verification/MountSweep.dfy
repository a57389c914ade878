/** Sweeping stale mounts: select the targets under a directory, longest first, and detach each. */
module MountSweep {
  import opened Prelude
  import opened Paths
  import GoSort

  // ---------------------------------------------------------------------------
  // The mount table
  // ---------------------------------------------------------------------------

  function Select(s: seq<string>, keep: string -> bool): seq<string> {
    if s == [] then []
    else Select(s[..|s| - 1], keep) + if keep(s[|s| - 1]) then [s[|s| - 1]] else []
  }

  function RemoveLast(s: seq<string>, t: string): seq<string> {
    if s == [] then []
    else if s[|s| - 1] == t then s[..|s| - 1]
    else RemoveLast(s[..|s| - 1], t) + [s[|s| - 1]]
  }

  /** A lazy unmount: the topmost mount at `t` goes, and with it everything strictly beneath. */
  function Detach(mounts: seq<string>, t: string): seq<string> {
    Select(RemoveLast(mounts, t), NotBeneath(t))
  }

  function Selected(prefix: string): string -> bool { m => Matches(m, prefix) }
  function Unselected(prefix: string): string -> bool { m => !Matches(m, prefix) }
  function NotBeneath(t: string): string -> bool { m => !Beneath(m, t) }

  function Under(mounts: seq<string>, prefix: string): seq<string> {
    Select(mounts, Selected(prefix))
  }

  function Outside(mounts: seq<string>, prefix: string): seq<string> {
    Select(mounts, Unselected(prefix))
  }

  lemma {:induction false} InSelect(s: seq<string>, keep: string -> bool, m: string)
    ensures m in Select(s, keep) <==> m in s && keep(m)
  {
    if s != [] {
      InSelect(s[..|s| - 1], keep, m);
      assert s == s[..|s| - 1] + [s[|s| - 1]];
    }
  }

  lemma {:induction false} SelectOfSelect(s: seq<string>, outer: string -> bool, inner: string -> bool)
    requires forall m :: m in s && outer(m) ==> inner(m)
    ensures Select(Select(s, inner), outer) == Select(s, outer)
  {
    if s != [] {
      var init, last := s[..|s| - 1], s[|s| - 1];
      SelectOfSelect(init, outer, inner);
      assert s == init + [last];
      if inner(last) {
        var t := Select(init, inner) + [last];
        assert t[..|t| - 1] == Select(init, inner) && t[|t| - 1] == last;
        assert Select(s, inner) == t;
      } else {
        assert last in s && Select(s, inner) == Select(init, inner);
      }
    }
  }

  lemma {:induction false} SelectRemoveLast(s: seq<string>, t: string, keep: string -> bool)
    ensures !keep(t) ==> Select(RemoveLast(s, t), keep) == Select(s, keep)
    ensures keep(t) && t in s ==> multiset(Select(RemoveLast(s, t), keep)) + multiset{t} == multiset(Select(s, keep))
  {
    if s != [] {
      var init, last := s[..|s| - 1], s[|s| - 1];
      assert s == init + [last];
      if last != t {
        SelectRemoveLast(init, t, keep);
        var r := RemoveLast(init, t) + [last];
        assert r[..|r| - 1] == RemoveLast(init, t);
      }
    }
  }

  lemma {:induction false} InRemoveLast(s: seq<string>, t: string, m: string)
    ensures m in RemoveLast(s, t) ==> m in s
  {
    if s != [] {
      InRemoveLast(s[..|s| - 1], t, m);
    }
  }

  lemma BeneathIsLonger(m: string, t: string)
    requires Beneath(m, t)
    ensures |m| > |t|
  {
  }

  /** Beneath a selected target everything is selected, except for the root under itself as directory. */
  lemma BeneathMatches(m: string, t: string, prefix: string)
    requires !(prefix == "/" && t == "/") && Matches(t, prefix) && Beneath(m, t)
    ensures Matches(m, prefix)
  {
    if t == "/" {
      assert prefix == "";
    } else if t != prefix {
      assert prefix + "/" <= t <= t + "/" <= m;
    }
  }

  /** The one table that the order does not fit: the root itself is to be swept, with mounts beneath it. */
  ghost predicate OrderSafe(mounts: seq<string>, prefix: string) {
    prefix == "/" && "/" in mounts ==> forall m :: m in mounts ==> !Beneath(m, "/")
  }

  lemma SafeTargetMatches(mounts: seq<string>, t: string, m: string, prefix: string)
    requires OrderSafe(mounts, prefix) && t in mounts && m in mounts && Matches(t, prefix) && Beneath(m, t)
    ensures Matches(m, prefix)
  {
    BeneathMatches(m, t, prefix);
  }

  /** Detaching a selected target touches no other part of the table. */
  lemma DetachSparesOutside(mounts: seq<string>, t: string, prefix: string)
    requires OrderSafe(mounts, prefix) && t in mounts && Matches(t, prefix)
    ensures Outside(Detach(mounts, t), prefix) == Outside(mounts, prefix)
  {
    var rest := RemoveLast(mounts, t);
    forall m | m in rest && !Matches(m, prefix) ensures !Beneath(m, t) {
      InRemoveLast(mounts, t, m);
      if Beneath(m, t) {
        SafeTargetMatches(mounts, t, m, prefix);
      }
    }
    SelectOfSelect(rest, Unselected(prefix), NotBeneath(t));
    SelectRemoveLast(mounts, t, Unselected(prefix));
  }

  // ---------------------------------------------------------------------------
  // The sweep
  // ---------------------------------------------------------------------------

  const DEFAULT_LAYERS_DIR := "/run/gojail/layers"

  function Directory(layersPrefix: string): string {
    Clean(if layersPrefix == "" then DEFAULT_LAYERS_DIR else layersPrefix)
  }

  /** The cleaned mount point of a line of the mount file, given by its fields; short lines are skipped. */
  function TargetOf(fields: seq<string>): seq<string> {
    if |fields| >= 2 then [Clean(fields[1])] else []
  }

  function Targets(lines: seq<seq<string>>): seq<string> { Gather(TargetOf, lines) }

  function MatchOf(prefix: string): seq<string> -> seq<string> {
    fields => if |fields| >= 2 && Matches(Clean(fields[1]), prefix) then [Clean(fields[1])] else []
  }

  function Matched(lines: seq<seq<string>>, prefix: string): seq<string> { Gather(MatchOf(prefix), lines) }

  const LONGER := (x: string, y: string) => |x| > |y|

  /** The kernel's disposition towards one unmount: willing, reporting that the path does not exist, or refusing. */
  datatype Kernel = Willing | NoEntry | Refusing

  predicate Works(k: Kernel, target: string, mounts: seq<string>) {
    k.Willing? && target in mounts
  }

  /** Table and count after the attempts from `k` on, the kernel meeting attempt `i` with `kernel(i)`.
      A path that does not exist counts as unmounted. */
  function Attempts(mounts: seq<string>, sorted: seq<string>, kernel: nat -> Kernel, k: nat): (seq<string>, nat)
    requires k <= |sorted|
    decreases |sorted| - k
  {
    if k == |sorted| then (mounts, 0)
    else
      var works := Works(kernel(k), sorted[k], mounts);
      var (rest, count) := Attempts(if works then Detach(mounts, sorted[k]) else mounts, sorted, kernel, k + 1);
      (rest, if works || kernel(k).NoEntry? then count + 1 else count)
  }

  /** The scan of the mount file, already split into lines and fields. */
  method ScanMounts(lines: seq<seq<string>>, prefix: string) returns (matched: seq<string>)
    ensures matched == Matched(lines, prefix)
  {
    matched := [];
    for i := 0 to |lines|
      invariant matched == Matched(lines[..i], prefix)
    {
      assert lines[..i + 1][..i] == lines[..i];
      var fields := lines[i];
      if |fields| < 2 {
        continue;
      }
      var target := Clean(fields[1]);
      if target == prefix || HasPrefix(target, prefix + "/") {
        matched := matched + [target];
      }
    }
    assert lines[..|lines|] == lines;
  }

  class MountTable {
    var mounts: seq<string>

    constructor (mounts: seq<string>)
      ensures this.mounts == mounts
    {
      this.mounts := mounts;
    }

    /** `unix.Unmount`: an error leaves the table alone; `isNotExist` tells the one kind of error. */
    method Unmount(target: string, kernel: Kernel) returns (failed: bool, isNotExist: bool)
      modifies this
      ensures !failed <==> Works(kernel, target, old(mounts))
      ensures isNotExist <==> kernel.NoEntry?
      ensures mounts == if failed then old(mounts) else Detach(old(mounts), target)
    {
      failed, isNotExist := !Works(kernel, target, mounts), kernel.NoEntry?;
      if !failed {
        mounts := Detach(mounts, target);
      }
    }

    /** One attempt per target, in order; all but refused ones are counted. */
    method UnmountAll(targets: seq<string>, kernel: nat -> Kernel) returns (unmounted: nat)
      modifies this
      ensures (mounts, unmounted) == Attempts(old(mounts), targets, kernel, 0)
    {
      unmounted := 0;
      for i := 0 to |targets|
        invariant Plus(Attempts(mounts, targets, kernel, i), unmounted) == Attempts(old(mounts), targets, kernel, 0)
      {
        AttemptStep(mounts, targets, kernel, i);
        var failed, isNotExist := Unmount(targets[i], kernel(i));
        if failed && !isNotExist {
          continue;
        }
        unmounted := unmounted + 1;
      }
    }

    /** Scan, sort by descending length, then attempt each target and count. */
    method SweepStaleMounts(lines: seq<seq<string>>, layersPrefix: string, kernel: nat -> Kernel)
      returns (unmounted: nat, ghost sorted: seq<string>)
      modifies this
      ensures GoSort.SortOf(LONGER, sorted, Matched(lines, Directory(layersPrefix)))
      ensures (mounts, unmounted) == Attempts(old(mounts), sorted, kernel, 0)
    {
      var cleanPrefix := Directory(layersPrefix);
      var matched := ScanMounts(lines, cleanPrefix);
      matched := GoSort.SortSlice(LONGER, matched);
      sorted := matched;
      unmounted := UnmountAll(matched, kernel);
    }
  }

  function Plus(r: (seq<string>, nat), n: nat): (seq<string>, nat) { (r.0, r.1 + n) }

  lemma AttemptStep(mounts: seq<string>, sorted: seq<string>, kernel: nat -> Kernel, k: nat)
    requires k < |sorted|
    ensures var works := Works(kernel(k), sorted[k], mounts);
            Attempts(mounts, sorted, kernel, k) ==
            Plus(Attempts(if works then Detach(mounts, sorted[k]) else mounts, sorted, kernel, k + 1),
                 if works || kernel(k).NoEntry? then 1 else 0)
  {
  }

  lemma {:induction false} MatchedIsUnder(lines: seq<seq<string>>, prefix: string)
    ensures Matched(lines, prefix) == Under(Targets(lines), prefix)
  {
    if lines != [] {
      var init, f := lines[..|lines| - 1], lines[|lines| - 1];
      MatchedIsUnder(init, prefix);
      SelectConcat(Targets(init), TargetOf(f), Selected(prefix));
    }
  }

  lemma SelectConcat(s: seq<string>, one: seq<string>, keep: string -> bool)
    requires |one| <= 1
    ensures Select(s + one, keep) == Select(s, keep) + if |one| == 1 && keep(one[0]) then one else []
  {
    if one == [] {
      assert s + one == s && Select(s, keep) + [] == Select(s, keep);
    } else {
      assert (s + one)[..|s|] == s && (s + one)[|s|] == one[0] && one == [one[0]];
    }
  }

  lemma TargetsAreClean(lines: seq<seq<string>>, t: string)
    requires t in Targets(lines)
    ensures Matches(t, "/") <==> t == "/"
  {
    GatherIff(TargetOf, lines, t);
    var fields :| fields in lines && t in TargetOf(fields);
    RootMatchesItself(fields[1]);
  }

  /** In the sweep's order a target never comes before something strictly beneath it. */
  lemma ChildrenFirst(sorted: seq<string>, i: nat, j: nat)
    requires GoSort.Ordered(LONGER, sorted) && i < |sorted| && j < |sorted| && Beneath(sorted[i], sorted[j])
    ensures i < j
  {
    BeneathIsLonger(sorted[i], sorted[j]);
  }

  /** The table before attempt `k`. */
  function TableAt(mounts: seq<string>, sorted: seq<string>, kernel: nat -> Kernel, k: nat): seq<string>
    requires k <= |sorted|
  {
    if k == 0 then mounts
    else
      var before := TableAt(mounts, sorted, kernel, k - 1);
      if Works(kernel(k - 1), sorted[k - 1], before) then Detach(before, sorted[k - 1]) else before
  }

  /** The sweep's final table is the one before the attempt after the last. */
  lemma {:induction false} AttemptsFromTable(mounts: seq<string>, sorted: seq<string>, kernel: nat -> Kernel, k: nat)
    requires k <= |sorted|
    ensures Attempts(mounts, sorted, kernel, 0).0 == Attempts(TableAt(mounts, sorted, kernel, k), sorted, kernel, k).0
  {
    if k > 0 {
      AttemptsFromTable(mounts, sorted, kernel, k - 1);
    }
  }

  lemma DetachShrinks(mounts: seq<string>, t: string)
    ensures forall m :: m in Detach(mounts, t) ==> m in mounts && !Beneath(m, t)
  {
    forall m | m in Detach(mounts, t) ensures m in mounts && !Beneath(m, t) {
      InSelect(RemoveLast(mounts, t), NotBeneath(t), m);
      InRemoveLast(mounts, t, m);
    }
  }

  ghost predicate Within(now: seq<string>, all: seq<string>) {
    forall m :: m in now ==> m in all
  }

  /** Nothing is ever added to the table. */
  lemma {:induction false} TableShrinks(mounts: seq<string>, sorted: seq<string>, kernel: nat -> Kernel, j: nat, k: nat)
    requires j <= k <= |sorted|
    ensures Within(TableAt(mounts, sorted, kernel, k), TableAt(mounts, sorted, kernel, j))
  {
    if j < k {
      TableShrinks(mounts, sorted, kernel, j, k - 1);
      DetachShrinks(TableAt(mounts, sorted, kernel, k - 1), sorted[k - 1]);
    }
  }

  lemma SelectedTarget(lines: seq<seq<string>>, prefix: string, sorted: seq<string>, k: nat)
    requires k < |sorted| && multiset(sorted) == multiset(Matched(lines, prefix))
    ensures Matches(sorted[k], prefix) && sorted[k] in Targets(lines)
  {
    MatchedIsUnder(lines, prefix);
    assert sorted[k] in multiset(sorted);
    InSelect(Targets(lines), Selected(prefix), sorted[k]);
  }

  /** Every selected target has its place in the order. */
  lemma TargetPlaced(lines: seq<seq<string>>, prefix: string, sorted: seq<string>, t: string) returns (k: nat)
    requires t in Targets(lines) && Matches(t, prefix) && multiset(sorted) == multiset(Matched(lines, prefix))
    ensures k < |sorted| && sorted[k] == t
  {
    MatchedIsUnder(lines, prefix);
    InSelect(Targets(lines), Selected(prefix), t);
    assert t in multiset(sorted);
    k :| 0 <= k < |sorted| && sorted[k] == t;
  }

  // ---------------------------------------------------------------------------
  // Teardown order
  // ---------------------------------------------------------------------------

  /** Whatever still lies strictly beneath the target of attempt `k` has had its own attempt before. */
  ghost predicate ChildrenAttempted(lines: seq<seq<string>>, sorted: seq<string>, kernel: nat -> Kernel, k: nat)
    requires k < |sorted|
  {
    forall m :: m in TableAt(Targets(lines), sorted, kernel, k) && Beneath(m, sorted[k]) ==> m in sorted[..k]
  }

  /** Attempt `k` with a safe table, for every pattern of failures. */
  lemma BeneathAlreadyAttempted(lines: seq<seq<string>>, prefix: string, sorted: seq<string>,
                                kernel: nat -> Kernel, k: nat)
    requires OrderSafe(Targets(lines), prefix)
    requires k < |sorted| && GoSort.SortOf(LONGER, sorted, Matched(lines, prefix))
    ensures ChildrenAttempted(lines, sorted, kernel, k)
  {
    TableShrinks(Targets(lines), sorted, kernel, 0, k);
    SelectedTarget(lines, prefix, sorted, k);
    forall m | m in TableAt(Targets(lines), sorted, kernel, k) && Beneath(m, sorted[k]) ensures m in sorted[..k] {
      SafeTargetMatches(Targets(lines), sorted[k], m, prefix);
      var i := TargetPlaced(lines, prefix, sorted, m);
      ChildrenFirst(sorted, i, k);
    }
  }

  /** With the root as directory and mounted, whatever is beneath it fails to come first. */
  lemma RootComesTooEarly(lines: seq<seq<string>>, sorted: seq<string>, kernel: nat -> Kernel)
    requires !OrderSafe(Targets(lines), "/") && multiset(sorted) == multiset(Matched(lines, "/"))
    ensures |sorted| > 0 && sorted[0] == "/" && !ChildrenAttempted(lines, sorted, kernel, 0)
  {
    TargetsAreClean(lines, "/");
    var k := TargetPlaced(lines, "/", sorted, "/");
    SelectedTarget(lines, "/", sorted, 0);
    TargetsAreClean(lines, sorted[0]);
    var m :| m in Targets(lines) && Beneath(m, "/");
    assert m in TableAt(Targets(lines), sorted, kernel, 0) && m !in sorted[..0];
  }

  /** For every sort outcome and pattern of failures, children are attempted before their parents. */
  ghost predicate TeardownOrder(lines: seq<seq<string>>, prefix: string) {
    forall sorted, kernel, k :: GoSort.SortOf(LONGER, sorted, Matched(lines, prefix)) && 0 <= k < |sorted| ==>
      ChildrenAttempted(lines, sorted, kernel, k)
  }

  /** The order is right if and only if it is not the root that is swept with mounts beneath it. */
  lemma TeardownOrderIff(lines: seq<seq<string>>, prefix: string)
    ensures TeardownOrder(lines, prefix) <==> OrderSafe(Targets(lines), prefix)
  {
    if OrderSafe(Targets(lines), prefix) {
      forall sorted, kernel, k | GoSort.SortOf(LONGER, sorted, Matched(lines, prefix)) && 0 <= k < |sorted|
        ensures ChildrenAttempted(lines, sorted, kernel, k)
      {
        BeneathAlreadyAttempted(lines, prefix, sorted, kernel, k);
      }
    } else {
      var sorted := SomeOrder(lines, prefix);
      var kernel := (i: nat) => Refusing;
      RootComesTooEarly(lines, sorted, kernel);
      assert !ChildrenAttempted(lines, sorted, kernel, 0);
    }
  }

  lemma SomeOrder(lines: seq<seq<string>>, prefix: string) returns (sorted: seq<string>)
    ensures GoSort.SortOf(LONGER, sorted, Matched(lines, prefix))
  {
    sorted := GoSort.InsertionSort(LONGER, Matched(lines, prefix));
    GoSort.InsertionSortSorts(LONGER, Matched(lines, prefix));
  }

  // ---------------------------------------------------------------------------
  // What the sweep leaves alone
  // ---------------------------------------------------------------------------

  /** Before attempt `k` the part of the table outside the directory is as it was. */
  ghost predicate OutsideKept(lines: seq<seq<string>>, prefix: string, sorted: seq<string>, kernel: nat -> Kernel, k: nat)
    requires k <= |sorted|
  {
    Outside(TableAt(Targets(lines), sorted, kernel, k), prefix) == Outside(Targets(lines), prefix)
  }

  /** A smaller table is as safe. */
  lemma SafeShrinks(all: seq<string>, now: seq<string>, prefix: string)
    requires OrderSafe(all, prefix) && Within(now, all)
    ensures OrderSafe(now, prefix)
  {
  }

  lemma AttemptSparesOutside(all: seq<string>, before: seq<string>, t: string, prefix: string, k: Kernel)
    requires OrderSafe(all, prefix) && Within(before, all) && Matches(t, prefix)
    ensures Outside(if Works(k, t, before) then Detach(before, t) else before, prefix) == Outside(before, prefix)
  {
    SafeShrinks(all, before, prefix);
    if Works(k, t, before) {
      DetachSparesOutside(before, t, prefix);
    }
  }

  lemma {:induction false} SafeKeepsOutside(lines: seq<seq<string>>, prefix: string, sorted: seq<string>,
                                            kernel: nat -> Kernel, k: nat)
    requires OrderSafe(Targets(lines), prefix)
    requires k <= |sorted| && GoSort.SortOf(LONGER, sorted, Matched(lines, prefix))
    ensures OutsideKept(lines, prefix, sorted, kernel, k)
  {
    if k > 0 {
      SafeKeepsOutside(lines, prefix, sorted, kernel, k - 1);
      TableShrinks(Targets(lines), sorted, kernel, 0, k - 1);
      SelectedTarget(lines, prefix, sorted, k - 1);
      var before := TableAt(Targets(lines), sorted, kernel, k - 1);
      AttemptSparesOutside(Targets(lines), before, sorted[k - 1], prefix, kernel(k - 1));
    }
  }

  /** Detaching the root drags mounts outside the selection along, for good. */
  lemma RootDragsAlong(lines: seq<seq<string>>, sorted: seq<string>, kernel: nat -> Kernel, k: nat)
    requires !OrderSafe(Targets(lines), "/") && GoSort.SortOf(LONGER, sorted, Matched(lines, "/"))
    requires 1 <= k <= |sorted| && kernel(0) == Willing
    ensures !OutsideKept(lines, "/", sorted, kernel, k)
  {
    RootComesTooEarly(lines, sorted, kernel);
    var m :| m in Targets(lines) && Beneath(m, "/");
    TargetsAreClean(lines, m);
    InSelect(Targets(lines), Unselected("/"), m);
    var first := TableAt(Targets(lines), sorted, kernel, 1);
    assert first == Detach(TableAt(Targets(lines), sorted, kernel, 0), "/");
    DetachShrinks(Targets(lines), "/");
    TableShrinks(Targets(lines), sorted, kernel, 1, k);
    InSelect(TableAt(Targets(lines), sorted, kernel, k), Unselected("/"), m);
  }

  /** At no point of any sweep is anything outside the directory touched. */
  ghost predicate OutsideAlwaysKept(lines: seq<seq<string>>, prefix: string) {
    forall sorted, kernel, k :: GoSort.SortOf(LONGER, sorted, Matched(lines, prefix)) && 0 <= k <= |sorted| ==>
      OutsideKept(lines, prefix, sorted, kernel, k)
  }

  lemma SomethingDraggedAlong(lines: seq<seq<string>>, sorted: seq<string>, kernel: nat -> Kernel)
    requires !OrderSafe(Targets(lines), "/") && GoSort.SortOf(LONGER, sorted, Matched(lines, "/"))
    requires kernel(0) == Willing
    ensures !OutsideAlwaysKept(lines, "/")
  {
    RootComesTooEarly(lines, sorted, kernel);
    RootDragsAlong(lines, sorted, kernel, 1);
  }

  /** The same condition decides whether every sweep leaves the outside alone, whatever fails. */
  lemma OutsideKeptIff(lines: seq<seq<string>>, prefix: string)
    ensures OutsideAlwaysKept(lines, prefix) <==> OrderSafe(Targets(lines), prefix)
  {
    if OrderSafe(Targets(lines), prefix) {
      forall sorted, kernel, k | GoSort.SortOf(LONGER, sorted, Matched(lines, prefix)) && 0 <= k <= |sorted|
        ensures OutsideKept(lines, prefix, sorted, kernel, k)
      {
        SafeKeepsOutside(lines, prefix, sorted, kernel, k);
      }
    } else {
      var sorted := SomeOrder(lines, prefix);
      SomethingDraggedAlong(lines, sorted, i => Willing);
    }
  }

  // ---------------------------------------------------------------------------
  // Completeness
  // ---------------------------------------------------------------------------

  /** One working attempt on a target with nothing beneath it pops exactly one entry. */
  lemma LeafPopped(mounts: seq<string>, t: string, prefix: string)
    requires Matches(t, prefix) && t in mounts
    requires forall m :: m in mounts ==> !Beneath(m, t)
    ensures multiset(Under(Detach(mounts, t), prefix)) + multiset{t} == multiset(Under(mounts, prefix))
  {
    var rest := RemoveLast(mounts, t);
    forall m | m in rest ensures !Beneath(m, t) {
      InRemoveLast(mounts, t, m);
    }
    SelectOfSelect(rest, Selected(prefix), NotBeneath(t));
    SelectRemoveLast(mounts, t, Selected(prefix));
  }

  lemma OneFewer(after: seq<string>, before: seq<string>, sorted: seq<string>, k: nat)
    requires k < |sorted| && multiset(after) + multiset{sorted[k]} == multiset(before) == multiset(sorted[k..])
    ensures multiset(after) == multiset(sorted[k + 1..])
  {
    assert sorted[k..] == [sorted[k]] + sorted[k + 1..];
    assert multiset(after) == multiset(sorted[k..]) - multiset{sorted[k]};
  }

  /** When exactly the remaining targets are mounted, the next one is mounted and has nothing beneath it. */
  lemma NextTargetIsLeaf(mounts: seq<string>, sorted: seq<string>, prefix: string, k: nat)
    requires OrderSafe(mounts, prefix) && k < |sorted| && GoSort.Ordered(LONGER, sorted)
    requires multiset(Under(mounts, prefix)) == multiset(sorted[k..])
    ensures sorted[k] in mounts && Matches(sorted[k], prefix)
    ensures forall m :: m in mounts ==> !Beneath(m, sorted[k])
  {
    var tail, t := sorted[k..], sorted[k];
    assert tail[0] in multiset(tail);
    InSelect(mounts, Selected(prefix), t);
    forall m | m in mounts ensures !Beneath(m, t) {
      if Matches(m, prefix) {
        InSelect(mounts, Selected(prefix), m);
        assert m in multiset(tail);
        var i :| 0 <= i < |tail| && tail[i] == m;
        LaterIsNotBeneath(sorted, k + i, k);
      } else {
        UnselectedIsNotBeneath(mounts, t, m, prefix);
      }
    }
  }

  lemma LaterIsNotBeneath(sorted: seq<string>, i: nat, j: nat)
    requires GoSort.Ordered(LONGER, sorted) && j <= i < |sorted|
    ensures !Beneath(sorted[i], sorted[j])
  {
    if Beneath(sorted[i], sorted[j]) {
      ChildrenFirst(sorted, i, j);
    }
  }

  lemma UnselectedIsNotBeneath(mounts: seq<string>, t: string, m: string, prefix: string)
    requires OrderSafe(mounts, prefix) && t in mounts && m in mounts && Matches(t, prefix) && !Matches(m, prefix)
    ensures !Beneath(m, t)
  {
    if Beneath(m, t) {
      SafeTargetMatches(mounts, t, m, prefix);
    }
  }

  /** From any point where exactly the remaining targets are still mounted under the directory. */
  lemma {:induction false} SweepFrom(mounts: seq<string>, sorted: seq<string>, prefix: string, kernel: nat -> Kernel, k: nat)
    requires OrderSafe(mounts, prefix) && k <= |sorted| && GoSort.Ordered(LONGER, sorted)
    requires (forall i :: kernel(i) == Willing) && multiset(Under(mounts, prefix)) == multiset(sorted[k..])
    ensures var (rest, count) := Attempts(mounts, sorted, kernel, k);
            Under(rest, prefix) == [] && count == |sorted| - k
    decreases |sorted| - k
  {
    if k == |sorted| {
      assert |multiset(Under(mounts, prefix))| == 0;
    } else {
      NextTargetIsLeaf(mounts, sorted, prefix, k);
      LeafPopped(mounts, sorted[k], prefix);
      OneFewer(Under(Detach(mounts, sorted[k]), prefix), Under(mounts, prefix), sorted, k);
      DetachShrinks(mounts, sorted[k]);
      SweepFrom(Detach(mounts, sorted[k]), sorted, prefix, kernel, k + 1);
    }
  }

  /** Nothing under the directory remains, the rest of the table is as it was, and every match was counted. */
  ghost predicate CleanSweep(lines: seq<seq<string>>, prefix: string, rest: seq<string>, count: nat) {
    && Under(rest, prefix) == [] && Outside(rest, prefix) == Outside(Targets(lines), prefix)
    && count == |Matched(lines, prefix)|
  }

  /** If all unmounts work, the sweep is clean, stacked mounts popped once per entry, if and only if it is not
      the root that is swept with mounts beneath it. */
  lemma SweepCleansIff(lines: seq<seq<string>>, prefix: string, sorted: seq<string>, kernel: nat -> Kernel)
    requires GoSort.SortOf(LONGER, sorted, Matched(lines, prefix)) && forall i :: kernel(i) == Willing
    ensures var (rest, count) := Attempts(Targets(lines), sorted, kernel, 0);
            CleanSweep(lines, prefix, rest, count) <==> OrderSafe(Targets(lines), prefix)
  {
    AttemptsFromTable(Targets(lines), sorted, kernel, |sorted|);
    if OrderSafe(Targets(lines), prefix) {
      MatchedIsUnder(lines, prefix);
      assert sorted[0..] == sorted;
      assert |sorted| == |multiset(sorted)| == |multiset(Matched(lines, prefix))|;
      SweepFrom(Targets(lines), sorted, prefix, kernel, 0);
      SafeKeepsOutside(lines, prefix, sorted, kernel, |sorted|);
    } else {
      RootComesTooEarly(lines, sorted, kernel);
      RootDragsAlong(lines, sorted, kernel, |sorted|);
    }
  }

  /** The directory that is swept: the default one for an empty argument, else the argument's own components. */
  lemma DirectoryIsCleaned(layersPrefix: string)
    ensures layersPrefix == "" ==> Directory(layersPrefix) == "/run/gojail/layers"
    ensures Rooted(layersPrefix) ==> Directory(layersPrefix) == Text(Components(layersPrefix))
  {
    var parts := ["run", "gojail", "layers"];
    assert parts[1..] == ["gojail", "layers"] && parts[1..][1..] == ["layers"] && parts[1..][1..][1..] == [];
    assert Text(parts) == "/run/gojail/layers";
    CleanOfPlain(parts);
  }

  /** Attempt `i` counts when it works or its path does not exist. */
  predicate Counts(mounts: seq<string>, sorted: seq<string>, kernel: nat -> Kernel, i: nat)
    requires i < |sorted|
  {
    kernel(i) == NoEntry || (kernel(i) == Willing && sorted[i] in TableAt(mounts, sorted, kernel, i))
  }

  ghost function Counted(mounts: seq<string>, sorted: seq<string>, kernel: nat -> Kernel, from: nat): set<nat> {
    set i: nat | from <= i < |sorted| && Counts(mounts, sorted, kernel, i)
  }

  lemma CountedStep(mounts: seq<string>, sorted: seq<string>, kernel: nat -> Kernel, k: nat)
    requires k < |sorted|
    ensures |Counted(mounts, sorted, kernel, k)| ==
            |Counted(mounts, sorted, kernel, k + 1)| + if Counts(mounts, sorted, kernel, k) then 1 else 0
  {
    assert Counted(mounts, sorted, kernel, k) ==
           Counted(mounts, sorted, kernel, k + 1) + if Counts(mounts, sorted, kernel, k) then {k} else {};
  }

  /** From any point on, the count is the number of attempts still to come that count. */
  lemma {:induction false} CountFrom(mounts: seq<string>, sorted: seq<string>, kernel: nat -> Kernel, k: nat)
    requires k <= |sorted|
    ensures Attempts(TableAt(mounts, sorted, kernel, k), sorted, kernel, k).1 == |Counted(mounts, sorted, kernel, k)|
    decreases |sorted| - k
  {
    if k < |sorted| {
      CountFrom(mounts, sorted, kernel, k + 1);
      CountedStep(mounts, sorted, kernel, k);
      AttemptStep(TableAt(mounts, sorted, kernel, k), sorted, kernel, k);
    } else {
      assert Counted(mounts, sorted, kernel, k) == {};
    }
  }

  /** The reported count is the number of targets detached or found missing. */
  lemma CountIsExact(mounts: seq<string>, sorted: seq<string>, kernel: nat -> Kernel, counted: set<nat>)
    requires forall i: nat ::
               i in counted <==>
               (&& i < |sorted|
                && (kernel(i) == NoEntry || (kernel(i) == Willing && sorted[i] in TableAt(mounts, sorted, kernel, i))))
    ensures Attempts(mounts, sorted, kernel, 0).1 == |counted|
  {
    CountFrom(mounts, sorted, kernel, 0);
    assert TableAt(mounts, sorted, kernel, 0) == mounts;
    assert counted == Counted(mounts, sorted, kernel, 0);
  }

  lemma CleanedExamples()
    ensures Clean("/") == "/" && Clean("/a") == "/a"
  {
    CleanOfPlain([]);
    CleanOfPlain(["a"]);
    assert Body(["a"]) == "/" + "a" + "" == "/a" by {
      assert Body(["a"][1..]) == "";
    }
  }

  lemma ExampleFields()
    ensures TargetOf(["proc", "/"]) == MatchOf("/")(["proc", "/"]) == ["/"]
    ensures TargetOf(["tmpfs", "/a"]) == ["/a"] && MatchOf("/")(["tmpfs", "/a"]) == []
  {
    CleanedExamples();
    RootMatchesItself("/a");
  }

  lemma ExampleLines()
    ensures Targets([["proc", "/"], ["tmpfs", "/a"]]) == ["/", "/a"]
    ensures Matched([["proc", "/"], ["tmpfs", "/a"]], "/") == ["/"]
  {
    ExampleFields();
    GatherTwo(TargetOf, ["proc", "/"], ["tmpfs", "/a"]);
    GatherTwo(MatchOf("/"), ["proc", "/"], ["tmpfs", "/a"]);
  }

  /** The failing input: with "/" as directory, a root mount and one beneath it, the root goes first. */
  lemma RootDirectoryIsSpecial(kernel: nat -> Kernel)
    ensures var lines := [["proc", "/"], ["tmpfs", "/a"]];
            && Directory("/") == "/"
            && GoSort.SortOf(LONGER, ["/"], Matched(lines, "/"))
            && "/a" in TableAt(Targets(lines), ["/"], kernel, 0) && Beneath("/a", "/")
            && !ChildrenAttempted(lines, ["/"], kernel, 0)
  {
    var lines := [["proc", "/"], ["tmpfs", "/a"]];
    CleanedExamples();
    ExampleLines();
    assert "/a" in TableAt(Targets(lines), ["/"], kernel, 0) && Beneath("/a", ["/"][0]) && "/a" !in ["/"][..0];
  }
}

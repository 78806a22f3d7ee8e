/** The gate that accepts a migration graph only when it is one strict chain. */
module LinearGate {
  import opened Prelude

  /** A revision's predecessor: none for a root, one, or several for a merge. */
  datatype Down = Root | Single(parent: string) | Merge(parents: seq<string>)

  datatype Revision = Revision(id: string, down: Down, dependsOn: seq<string>)

  datatype Violation =
    | HeadCount(count: nat)
    | MergeRevision(id: string)
    | DependsOn(id: string)
    | Branch(parent: string, children: nat)

  // ----- the revision graph -----

  predicate Follows(r: Revision, id: string) {
    match r.down
    case Root => false
    case Single(parent) => parent == id
    case Merge(parents) => id in parents
  }

  /**
   * A finite acyclic graph whose parents exist, in the order a walk from the heads visits
   * it: identifiers are distinct and every predecessor comes after its successors.
   */
  ghost predicate Walk(revs: seq<Revision>) {
    && DistinctIds(revs)
    && (forall i, id :: 0 <= i < |revs| && Follows(revs[i], id) ==> exists j :: i < j < |revs| && revs[j].id == id)
  }

  /** A head is a revision that no other revision follows. */
  predicate IsHead(revs: seq<Revision>, r: Revision) {
    forall other <- revs :: !Follows(other, r.id)
  }

  /** The graph's heads, in walk order. */
  function Heads(revs: seq<Revision>, all: seq<Revision>): seq<Revision> {
    if revs == [] then []
    else
      var rest := Heads(revs[1..], all);
      if IsHead(all, revs[0]) then [revs[0]] + rest else rest
  }

  // ----- the gate -----

  /** Revisions whose single predecessor is `parent`. */
  function Children(revs: seq<Revision>, parent: string): nat {
    if revs == [] then 0
    else Children(revs[..|revs| - 1], parent) + if revs[|revs| - 1].down == Single(parent) then 1 else 0
  }

  /** No violation: one head, no merge, no dependency edge and no revision with two children. */
  ghost predicate Clean(revs: seq<Revision>) {
    && |Heads(revs, revs)| == 1
    && (forall i :: 0 <= i < |revs| ==> !revs[i].down.Merge? && revs[i].dependsOn == [])
    && (forall parent :: Children(revs, parent) <= 1)
  }

  /** What the gate reports of single revisions: a merge hides its dependency edges. */
  function ScanOf(r: Revision): seq<Violation> {
    if r.down.Merge? then [MergeRevision(r.id)]
    else if r.dependsOn != [] then [DependsOn(r.id)]
    else []
  }

  function Scan(revs: seq<Revision>): seq<Violation> {
    if revs == [] then [] else Scan(revs[..|revs| - 1]) + ScanOf(revs[|revs| - 1])
  }

  /** Where the revisions stand that no revision follows, alone or in a merge. */
  ghost function HeadsAt(revs: seq<Revision>): set<nat> {
    set i: nat | i < |revs| &&
      forall r <- revs :: r.down != Single(revs[i].id) && !(r.down.Merge? && revs[i].id in r.down.parents)
  }

  /** Where the revisions stand that follow this one and no other. */
  ghost function ChildrenAt(revs: seq<Revision>, parent: string): set<nat> {
    set i: nat | i < |revs| && revs[i].down == Single(parent)
  }

  /** What is reported is the case. */
  ghost predicate Justified(v: Violation, revs: seq<Revision>) {
    match v
    case HeadCount(n) => n == |HeadsAt(revs)| && n != 1
    case MergeRevision(id) => exists r <- revs :: r.id == id && r.down.Merge?
    case DependsOn(id) => exists r <- revs :: r.id == id && !r.down.Merge? && r.dependsOn != []
    case Branch(parent, n) => n == |ChildrenAt(revs, parent)| && n > 1
  }

  lemma {:induction false} ChildrenAreCounted(revs: seq<Revision>, parent: string)
    ensures Children(revs, parent) == |ChildrenAt(revs, parent)|
  {
    if revs == [] {
      assert ChildrenAt(revs, parent) == {};
    } else {
      var n := |revs| - 1;
      ChildrenAreCounted(revs[..n], parent);
      assert ChildrenAt(revs, parent)
          == if revs[n].down == Single(parent) then ChildrenAt(revs[..n], parent) + {n} else ChildrenAt(revs[..n], parent);
    }
  }

  lemma HeadAt(revs: seq<Revision>, i: nat)
    requires i < |revs|
    ensures i in HeadsAt(revs) <==> IsHead(revs, revs[i])
  {
    forall r | r in revs
      ensures Follows(r, revs[i].id) <==>
              r.down == Single(revs[i].id) || (r.down.Merge? && revs[i].id in r.down.parents)
    {}
  }

  ghost function HeadsFrom(revs: seq<Revision>, n: nat): set<nat> {
    set i <- HeadsAt(revs) | n <= i
  }

  lemma {:induction false} HeadsAreCountedFrom(revs: seq<Revision>, n: nat)
    requires n <= |revs|
    ensures |Heads(revs[n..], revs)| == |HeadsFrom(revs, n)|
    decreases |revs| - n
  {
    if n == |revs| {
      assert HeadsFrom(revs, n) == {};
    } else {
      HeadsAreCountedFrom(revs, n + 1);
      HeadAt(revs, n);
      assert revs[n..][0] == revs[n] && revs[n..][1..] == revs[n + 1..];
      var later := HeadsFrom(revs, n + 1);
      assert HeadsFrom(revs, n) == if n in HeadsAt(revs) then later + {n} else later;
    }
  }

  lemma HeadsAreCounted(revs: seq<Revision>)
    ensures |Heads(revs, revs)| == |HeadsAt(revs)|
  {
    HeadsAreCountedFrom(revs, 0);
    assert revs[0..] == revs;
    assert HeadsFrom(revs, 0) == HeadsAt(revs);
  }

  lemma ScanSnoc(revs: seq<Revision>, last: Revision)
    ensures Scan(revs + [last]) == Scan(revs) + ScanOf(last)
  {
    assert (revs + [last])[..|revs|] == revs;
  }

  lemma Regroup<T>(a: seq<T>, b: seq<T>, c: seq<T>)
    ensures a + b + c == a + (b + c)
  {}

  /** Single revisions are reported one after the other, in walk order; a merge hides its dependency edges. */
  lemma {:induction false} ScanFollowsWalk(before: seq<Revision>, after: seq<Revision>)
    ensures Scan(before + after) == Scan(before) + Scan(after)
  {
    if after == [] {
      assert before + after == before;
    } else {
      var init, last := after[..|after| - 1], after[|after| - 1];
      assert after == init + [last];
      Regroup(before, init, [last]);
      ScanFollowsWalk(before, init);
      ScanSnoc(before + init, last);
      Regroup(Scan(before), Scan(init), ScanOf(last));
    }
  }

  lemma ScanOfOne(r: Revision)
    ensures Scan([r]) == if r.down.Merge? then [MergeRevision(r.id)]
                         else if r.dependsOn != [] then [DependsOn(r.id)] else []
  {
    assert [r][..0] == [];
  }

  lemma {:induction false} ScanIsEmptyWhen(revs: seq<Revision>)
    ensures Scan(revs) == [] <==> forall i :: 0 <= i < |revs| ==> !revs[i].down.Merge? && revs[i].dependsOn == []
  {
    if revs != [] {
      var init, last := revs[..|revs| - 1], revs[|revs| - 1];
      ScanIsEmptyWhen(init);
      EmptyConcat(Scan(init), ScanOf(last));
      assert forall i :: 0 <= i < |init| ==> init[i] == revs[i];
    }
  }

  lemma EmptyConcat(a: seq<Violation>, b: seq<Violation>)
    ensures a + b == [] <==> a == [] && b == []
  {
    assert |a + b| == |a| + |b|;
  }

  lemma {:induction false} ScanReports(revs: seq<Revision>, r: Revision, v: Violation)
    requires r in revs && v in ScanOf(r)
    ensures v in Scan(revs)
  {
    if r != revs[|revs| - 1] {
      ScanReports(revs[..|revs| - 1], r, v);
    }
  }

  lemma {:induction false} ScanIsJustified(revs: seq<Revision>, v: Violation)
    requires v in Scan(revs)
    ensures exists r <- revs :: v in ScanOf(r)
  {
    var init, last := revs[..|revs| - 1], revs[|revs| - 1];
    if v in Scan(init) {
      ScanIsJustified(init, v);
      var r :| r in init && v in ScanOf(r);
      assert r in revs;
    } else {
      assert last in revs && v in ScanOf(last);
    }
  }

  lemma ScanFacts(revs: seq<Revision>)
    ensures Scan(revs) == [] <==> forall i :: 0 <= i < |revs| ==> !revs[i].down.Merge? && revs[i].dependsOn == []
    ensures forall v <- Scan(revs) :: !v.HeadCount? && !v.Branch? && exists r <- revs :: v in ScanOf(r)
    ensures forall r <- revs, v <- ScanOf(r) :: v in Scan(revs)
  {
    ScanIsEmptyWhen(revs);
    forall v | v in Scan(revs)
      ensures !v.HeadCount? && !v.Branch? && exists r <- revs :: v in ScanOf(r)
    {
      ScanIsJustified(revs, v);
    }
    forall r, v | r in revs && v in ScanOf(r)
      ensures v in Scan(revs)
    {
      ScanReports(revs, r, v);
    }
  }

  /** Counts, for every single predecessor, the revisions that follow it. */
  method CountChildren(revs: seq<Revision>) returns (seen: map<string, nat>)
    ensures forall p :: (if p in seen then seen[p] else 0) == Children(revs, p)
  {
    seen := map[];
    for i := 0 to |revs|
      invariant forall p :: (if p in seen then seen[p] else 0) == Children(revs[..i], p)
    {
      assert revs[..i + 1][..i] == revs[..i];
      if revs[i].down.Single? {
        var p := revs[i].down.parent;
        seen := seen[p := (if p in seen then seen[p] else 0) + 1];
      }
    }
    assert revs[..|revs|] == revs;
  }

  method ScanRevisions(revs: seq<Revision>) returns (violations: seq<Violation>)
    ensures violations == Scan(revs)
  {
    violations := [];
    for i := 0 to |revs|
      invariant violations == Scan(revs[..i])
    {
      assert revs[..i + 1][..i] == revs[..i];
      var rev := revs[i];
      if rev.down.Merge? {
        violations := violations + [MergeRevision(rev.id)];
        continue;
      }
      if rev.dependsOn != [] {
        violations := violations + [DependsOn(rev.id)];
      }
    }
    assert revs[..|revs|] == revs;
  }

  method BranchesIn(seen: map<string, nat>) returns (branches: seq<Violation>)
    ensures forall v <- branches :: v.Branch? && v.parent in seen && v.children == seen[v.parent] > 1
    ensures forall p <- seen :: seen[p] > 1 ==> Branch(p, seen[p]) in branches
  {
    branches := [];
    var left := seen.Keys;
    while left != {}
      invariant left <= seen.Keys
      invariant forall v <- branches :: v.Branch? && v.parent in seen && v.children == seen[v.parent] > 1
      invariant forall p <- seen.Keys - left :: seen[p] > 1 ==> Branch(p, seen[p]) in branches
      decreases left
    {
      var p :| p in left;
      left := left - {p};
      if seen[p] > 1 {
        branches := branches + [Branch(p, seen[p])];
      }
    }
  }

  /** The branches of the graph: every predecessor with more than one child, and no other. */
  ghost predicate AreBranches(branches: seq<Violation>, revs: seq<Revision>) {
    && (forall v <- branches :: v.Branch? && v.children == Children(revs, v.parent) > 1)
    && (forall p :: Children(revs, p) > 1 ==> Branch(p, Children(revs, p)) in branches)
  }

  method BranchViolations(revs: seq<Revision>) returns (branches: seq<Violation>)
    ensures AreBranches(branches, revs)
  {
    var seen := CountChildren(revs);
    branches := BranchesIn(seen);
    forall p | Children(revs, p) > 1
      ensures Branch(p, Children(revs, p)) in branches
    {
      assert p in seen;
    }
  }

  function HeadViolations(revs: seq<Revision>): seq<Violation> {
    if |Heads(revs, revs)| != 1 then [HeadCount(|Heads(revs, revs)|)] else []
  }

  /** The reported violations: the head count, the scan of single revisions, the branches. */
  method LinearOnlyGate(revs: seq<Revision>) returns (violations: seq<Violation>, ghost branches: seq<Violation>)
    ensures AreBranches(branches, revs)
    ensures violations == HeadViolations(revs) + Scan(revs) + branches
    ensures violations == [] <==> Clean(revs)
  {
    var heads := Heads(revs, revs);
    violations := if |heads| != 1 then [HeadCount(|heads|)] else [];
    var scanned := ScanRevisions(revs);
    var found := BranchViolations(revs);
    branches := found;
    violations := violations + scanned + found;
    NoViolationMeansClean(revs, found);
  }

  lemma NoViolationMeansClean(revs: seq<Revision>, branches: seq<Violation>)
    requires AreBranches(branches, revs)
    ensures HeadViolations(revs) + Scan(revs) + branches == [] <==> Clean(revs)
  {
    ScanIsEmptyWhen(revs);
    if branches != [] {
      assert branches[0] in branches;
      assert Children(revs, branches[0].parent) > 1;
    }
  }

  /** Everything reported is the case, and everything that is the case is reported. */
  lemma ViolationsAreExact(revs: seq<Revision>, branches: seq<Violation>, v: Violation)
    requires AreBranches(branches, revs)
    ensures v in HeadViolations(revs) + Scan(revs) + branches <==> Justified(v, revs)
  {
    ScanFacts(revs);
    HeadsAreCounted(revs);
    if v.Branch? {
      ChildrenAreCounted(revs, v.parent);
    }
    if v.MergeRevision? || v.DependsOn? {
      ScannedExactly(revs, v);
    }
  }

  lemma ScannedExactly(revs: seq<Revision>, v: Violation)
    requires v.MergeRevision? || v.DependsOn?
    ensures v in Scan(revs) <==> Justified(v, revs)
  {
    ScanFacts(revs);
    if v in Scan(revs) {
      var r :| r in revs && v in ScanOf(r);
      assert r.id == v.id;
    }
    if Justified(v, revs) {
      var r :| r in revs && r.id == v.id && (if v.MergeRevision? then r.down.Merge? else !r.down.Merge? && r.dependsOn != []);
      assert v in ScanOf(r);
    }
  }

  // ----- what the gate characterises -----

  ghost predicate DistinctIds(revs: seq<Revision>) {
    forall i, j :: 0 <= i < j < |revs| ==> revs[i].id != revs[j].id
  }

  /** One chain: a root first, then each revision following exactly the one before it. */
  ghost predicate IsChain(chain: seq<Revision>) {
    && chain != []
    && DistinctIds(chain)
    && chain[0].down == Root
    && (forall i :: 1 <= i < |chain| ==> chain[i].down == Single(chain[i - 1].id))
    && (forall i :: 0 <= i < |chain| ==> chain[i].dependsOn == [])
  }

  function Reverse(s: seq<Revision>): (r: seq<Revision>)
    ensures |r| == |s| && forall i :: 0 <= i < |s| ==> r[i] == s[|s| - 1 - i]
  {
    if s == [] then [] else Reverse(s[1..]) + [s[0]]
  }

  // -- facts about heads and children --

  lemma {:induction false} HeadsAre(revs: seq<Revision>, all: seq<Revision>, r: Revision)
    ensures r in Heads(revs, all) <==> r in revs && IsHead(all, r)
  {
    if revs != [] {
      HeadsAre(revs[1..], all, r);
      assert revs == [revs[0]] + revs[1..];
    }
  }

  /** With a single head, two different revisions cannot both be heads. */
  lemma OneHead(revs: seq<Revision>, i: nat, j: nat)
    requires |Heads(revs, revs)| == 1 && i < |revs| && j < |revs|
    requires IsHead(revs, revs[i]) && IsHead(revs, revs[j])
    ensures revs[i] == revs[j]
  {
    HeadsAre(revs, revs, revs[i]);
    HeadsAre(revs, revs, revs[j]);
    assert Heads(revs, revs)[0] == revs[i];
  }

  lemma {:induction false} ChildrenCountsOne(revs: seq<Revision>, i: nat)
    requires i < |revs| && revs[i].down.Single?
    ensures Children(revs, revs[i].down.parent) >= 1
  {
    if i < |revs| - 1 {
      ChildrenCountsOne(revs[..|revs| - 1], i);
    }
  }

  /** With at most one child per revision, two revisions do not share their predecessor. */
  lemma {:induction false} OneChild(revs: seq<Revision>, i: nat, j: nat)
    requires i < j < |revs| && revs[i].down.Single? && revs[j].down == revs[i].down
    ensures Children(revs, revs[i].down.parent) >= 2
  {
    var n := |revs| - 1;
    if j < n {
      OneChild(revs[..n], i, j);
    } else {
      ChildrenCountsOne(revs[..n], i);
    }
  }

  // -- a clean walk is a chain --

  /** Later in the walk there is a follower for every revision but the first. */
  lemma HasFollower(revs: seq<Revision>, j: nat) returns (i: nat)
    requires Walk(revs) && Clean(revs) && 0 < j < |revs|
    ensures i < j && revs[i].down == Single(revs[j].id)
  {
    assert IsHead(revs, revs[0]) by {
      forall other | other in revs
        ensures !Follows(other, revs[0].id)
      {
        var k :| 0 <= k < |revs| && revs[k] == other;
      }
    }
    if IsHead(revs, revs[j]) {
      OneHead(revs, 0, j);
    }
    var other :| other in revs && Follows(other, revs[j].id);
    i :| 0 <= i < |revs| && revs[i] == other;
    var m :| i < m < |revs| && revs[m].id == revs[j].id;
    assert m == j;
  }

  /** In a clean walk each revision follows exactly the one visited after it. */
  lemma {:induction false} NextIsPredecessor(revs: seq<Revision>, j: nat)
    requires Walk(revs) && Clean(revs) && 0 < j < |revs|
    ensures revs[j - 1].down == Single(revs[j].id)
    decreases j
  {
    var i := HasFollower(revs, j);
    if i < j - 1 {
      NextIsPredecessor(revs, i + 1);
    }
  }

  lemma LastIsRoot(revs: seq<Revision>)
    requires Walk(revs) && Clean(revs) && revs != []
    ensures revs[|revs| - 1].down == Root
  {
    var n := |revs| - 1;
    if revs[n].down.Single? {
      assert Follows(revs[n], revs[n].down.parent);
    }
  }

  lemma CleanWalkIsChain(revs: seq<Revision>)
    requires Walk(revs) && Clean(revs)
    ensures IsChain(Reverse(revs))
  {
    var chain := Reverse(revs);
    LastIsRoot(revs);
    forall i | 1 <= i < |chain|
      ensures chain[i].down == Single(chain[i - 1].id)
    {
      NextIsPredecessor(revs, |revs| - i);
    }
  }

  // -- a chain is clean --

  lemma {:induction false} ChildrenOf(revs: seq<Revision>, parent: string)
    requires Children(revs, parent) >= 2
    ensures exists i, j :: 0 <= i < j < |revs| && revs[i].down == revs[j].down == Single(parent)
  {
    var n := |revs| - 1;
    if Children(revs[..n], parent) >= 2 {
      ChildrenOf(revs[..n], parent);
      var i, j :| 0 <= i < j < n && revs[..n][i].down == revs[..n][j].down == Single(parent);
      assert revs[i].down == revs[j].down == Single(parent);
    } else {
      var i := ChildAt(revs[..n], parent);
      assert revs[i].down == revs[n].down == Single(parent);
    }
  }

  lemma {:induction false} ChildAt(revs: seq<Revision>, parent: string) returns (i: nat)
    requires Children(revs, parent) >= 1
    ensures i < |revs| && revs[i].down == Single(parent)
  {
    var n := |revs| - 1;
    if revs[n].down == Single(parent) {
      i := n;
    } else {
      i := ChildAt(revs[..n], parent);
    }
  }

  ghost predicate SameRevisions(revs: seq<Revision>, chain: seq<Revision>) {
    forall r :: r in revs <==> r in chain
  }

  lemma ChainHead(revs: seq<Revision>, chain: seq<Revision>, k: nat)
    requires IsChain(chain) && SameRevisions(revs, chain) && k < |chain|
    ensures IsHead(revs, chain[k]) <==> k == |chain| - 1
  {
    if k < |chain| - 1 {
      assert chain[k + 1] in revs && Follows(chain[k + 1], chain[k].id);
    } else {
      forall other | other in revs
        ensures !Follows(other, chain[k].id)
      {
        var m :| 0 <= m < |chain| && chain[m] == other;
        if m > 0 {
          assert chain[m - 1].id != chain[k].id;
        }
      }
    }
  }

  lemma {:induction false} HeadsOfDistinct(revs: seq<Revision>, all: seq<Revision>, head: Revision)
    requires Distinct(revs)
    requires forall r <- revs :: IsHead(all, r) <==> r == head
    ensures Heads(revs, all) == if head in revs then [head] else []
  {
    if revs != [] {
      assert revs[0] !in revs[1..] && revs == [revs[0]] + revs[1..];
      HeadsOfDistinct(revs[1..], all, head);
    }
  }

  /** On a chain, revisions with the same predecessor are the same. */
  lemma SharedPredecessor(revs: seq<Revision>, chain: seq<Revision>, i: nat, j: nat)
    requires IsChain(chain) && SameRevisions(revs, chain)
    requires i < |revs| && j < |revs| && revs[i].down.Single? && revs[i].down == revs[j].down
    ensures revs[i] == revs[j]
  {
    assert revs[i] in chain && revs[j] in chain;
    var a :| 0 <= a < |chain| && chain[a] == revs[i];
    var b :| 0 <= b < |chain| && chain[b] == revs[j];
    assert chain[a - 1].id == chain[b - 1].id;
  }

  lemma ChainIsClean(revs: seq<Revision>, chain: seq<Revision>)
    requires Walk(revs) && IsChain(chain) && SameRevisions(revs, chain)
    ensures Clean(revs)
  {
    var head := chain[|chain| - 1];
    forall r | r in revs
      ensures IsHead(revs, r) <==> r == head
    {
      var k :| 0 <= k < |chain| && chain[k] == r;
      ChainHead(revs, chain, k);
    }
    assert head in revs;
    HeadsOfDistinct(revs, revs, head);
    forall i | 0 <= i < |revs|
      ensures !revs[i].down.Merge? && revs[i].dependsOn == []
    {
      assert revs[i] in chain;
      var k :| 0 <= k < |chain| && chain[k] == revs[i];
      assert k == 0 || chain[k].down == Single(chain[k - 1].id);
    }
    forall parent
      ensures Children(revs, parent) <= 1
    {
      if Children(revs, parent) >= 2 {
        ChildrenOf(revs, parent);
        var i, j :| 0 <= i < j < |revs| && revs[i].down == revs[j].down == Single(parent);
        SharedPredecessor(revs, chain, i, j);
      }
    }
  }

  /**
   * The gate is exact: an acyclic graph whose parents exist passes if and only if its
   * revisions form one chain, from the only root to the only head, each with the one before
   * it as only predecessor and no dependency edges.
   */
  lemma GateAcceptsExactlyChains(revs: seq<Revision>)
    requires Walk(revs)
    ensures Clean(revs) <==>
            exists chain :: IsChain(chain) && |chain| == |revs| && SameRevisions(revs, chain)
  {
    if Clean(revs) {
      CleanWalkIsChain(revs);
      var chain := Reverse(revs);
      forall r
        ensures r in revs <==> r in chain
      {
        if r in revs {
          var i :| 0 <= i < |revs| && revs[i] == r;
          assert chain[|revs| - 1 - i] == r;
        }
      }
    }
    if chain :| IsChain(chain) && |chain| == |revs| && SameRevisions(revs, chain) {
      ChainIsClean(revs, chain);
    }
  }
}

/**
 * Where the migration stands: the documents' claim reconciled with the pull requests,
 * advancing by one documented phase at most. The wording of the reasons is left out.
 */
module Phases {
  import opened Prelude
  import opened BranchNames
  import opened Checks

  datatype PullRequest = PullRequest(number: nat, phaseId: string, isOpen: bool, isMerged: bool, isDraft: bool, ci: Ci)

  /** The documented current and next phase, and the phases of the plan's rows in order. */
  datatype Documents = Documents(current: Option<string>, next: Option<string>, rows: seq<string>)

  datatype State =
    | InProgress
    | CiFails
    | CiIsPending
    | ReadyForReview
    | Merged
    | NextPhaseReady
    | HumanAttentionRequired

  datatype Situation = Situation(active: Option<string>, next: Option<string>, pullRequest: Option<PullRequest>, state: State)

  // ----- selecting pull requests -----

  datatype Criterion = OfPhase(phase: string) | Open | HasMerged | Numbered(number: nat)

  predicate Meets(pr: PullRequest, c: Criterion) {
    match c
    case OfPhase(phase) => pr.phaseId == phase
    case Open => pr.isOpen
    case HasMerged => pr.isMerged
    case Numbered(number) => pr.number == number
  }

  function Select(prs: seq<PullRequest>, c: Criterion): (r: seq<PullRequest>)
    ensures forall pr :: pr in r <==> pr in prs && Meets(pr, c)
  {
    if prs == [] then []
    else
      var before, last := Select(prs[..|prs| - 1], c), prs[|prs| - 1];
      assert prs == prs[..|prs| - 1] + [last];
      if Meets(last, c) then before + [last] else before
  }

  /** Groups the pull requests by phase, keeping their order. */
  method ByPhase(prs: seq<PullRequest>) returns (grouped: map<string, seq<PullRequest>>)
    ensures forall phase :: phase in grouped <==> Select(prs, OfPhase(phase)) != []
    ensures forall phase <- grouped :: grouped[phase] == Select(prs, OfPhase(phase))
  {
    grouped := map[];
    for i := 0 to |prs|
      invariant forall phase :: phase in grouped <==> Select(prs[..i], OfPhase(phase)) != []
      invariant forall phase <- grouped :: grouped[phase] == Select(prs[..i], OfPhase(phase))
    {
      assert prs[..i + 1][..i] == prs[..i];
      var pr := prs[i];
      grouped := grouped[pr.phaseId := (if pr.phaseId in grouped then grouped[pr.phaseId] else []) + [pr]];
    }
    assert prs[..|prs|] == prs;
  }

  // ----- the active phase -----

  predicate HasRow(d: Documents, phase: Option<string>) {
    phase.Some? && phase.value in d.rows
  }

  function SuccessorOf(d: Documents, phase: Option<string>): Option<string> {
    if phase.None? || phase != d.current then None else d.next
  }

  datatype Resolution = Resolution(active: Option<string>, needsHuman: bool)

  function ResolveActivePhase(d: Documents, prs: seq<PullRequest>): Resolution {
    if !HasRow(d, d.current) then Resolution(None, true)
    else
      var forCurrent := Select(prs, OfPhase(d.current.value));
      if Select(forCurrent, HasMerged) == [] then Resolution(d.current, false)
      else if Select(forCurrent, Open) != [] then Resolution(None, true)
      else
        var following := SuccessorOf(d, d.current);
        if following.None? then Resolution(None, d.rows[|d.rows| - 1] != d.current.value)
        else if !HasRow(d, following) then Resolution(None, true)
        else if Select(Select(prs, OfPhase(following.value)), HasMerged) != [] then Resolution(None, true)
        else Resolution(following, false)
  }

  // ----- what the active phase's pull requests say -----

  datatype Finding = Finding(state: State, pullRequest: Option<PullRequest>)

  function OpenState(pr: PullRequest): State {
    if pr.isDraft then InProgress
    else if pr.ci == CiFailing then CiFails
    else if pr.ci in {CiPending, CiNone, CiUnknown} then CiIsPending
    else ReadyForReview
  }

  function Classify(prs: seq<PullRequest>): Finding {
    var open := Select(prs, Open);
    if |open| > 1 then Finding(HumanAttentionRequired, None)
    else if |open| == 1 then Finding(OpenState(open[0]), Some(open[0]))
    else if prs == [] then Finding(NextPhaseReady, None)
    else
      var merged := Select(prs, HasMerged);
      if merged != [] then Finding(Merged, Some(merged[|merged| - 1]))
      else Finding(HumanAttentionRequired, None)
  }

  function Situated(d: Documents, prs: seq<PullRequest>): Situation {
    var r := ResolveActivePhase(d, prs);
    if r.needsHuman then Situation(r.active, None, None, HumanAttentionRequired)
    else if r.active.None? then Situation(None, None, None, Merged)
    else
      var f := Classify(Select(prs, OfPhase(r.active.value)));
      Situation(r.active, SuccessorOf(d, r.active), f.pullRequest, f.state)
  }

  method BuildSituation(d: Documents, prs: seq<PullRequest>) returns (s: Situation)
    ensures s == Situated(d, prs)
  {
    var grouped := ByPhase(prs);
    var r := ResolveActivePhase(d, prs);
    if r.needsHuman {
      return Situation(r.active, None, None, HumanAttentionRequired);
    }
    if r.active.None? {
      return Situation(None, None, None, Merged);
    }
    var f := Classify(if r.active.value in grouped then grouped[r.active.value] else []);
    s := Situation(r.active, SuccessorOf(d, r.active), f.pullRequest, f.state);
  }

  // ----- what the result can be -----

  ghost predicate HasSuch(prs: seq<PullRequest>, phase: string, c: Criterion) {
    exists pr <- prs :: pr.phaseId == phase && Meets(pr, c)
  }

  ghost predicate MergedFor(prs: seq<PullRequest>, phase: string) {
    exists pr <- prs :: pr.phaseId == phase && pr.isMerged
  }

  ghost predicate OpenFor(prs: seq<PullRequest>, phase: string) {
    exists pr <- prs :: pr.phaseId == phase && pr.isOpen
  }

  lemma SuchIs(prs: seq<PullRequest>, phase: string)
    ensures HasSuch(prs, phase, HasMerged) <==> MergedFor(prs, phase)
    ensures HasSuch(prs, phase, Open) <==> OpenFor(prs, phase)
  {
    if pr :| pr in prs && pr.phaseId == phase && Meets(pr, HasMerged) {
      assert pr.isMerged;
    }
    if pr :| pr in prs && pr.phaseId == phase && pr.isMerged {
      assert Meets(pr, HasMerged);
    }
    if pr :| pr in prs && pr.phaseId == phase && Meets(pr, Open) {
      assert pr.isOpen;
    }
    if pr :| pr in prs && pr.phaseId == phase && pr.isOpen {
      assert Meets(pr, Open);
    }
  }

  lemma SelectTwice(prs: seq<PullRequest>, phase: string, c: Criterion)
    ensures Select(Select(prs, OfPhase(phase)), c) == [] <==> !HasSuch(prs, phase, c)
    ensures c == HasMerged ==> (HasSuch(prs, phase, c) <==> MergedFor(prs, phase))
    ensures c == Open ==> (HasSuch(prs, phase, c) <==> OpenFor(prs, phase))
  {
    SuchIs(prs, phase);
    var s := Select(Select(prs, OfPhase(phase)), c);
    if s != [] {
      assert s[0] in s;
    }
  }

  /** The current phase is finished: something for it merged and nothing for it is open. */
  ghost predicate IsFinished(d: Documents, prs: seq<PullRequest>) {
    && d.current.Some? && d.current.value in d.rows
    && MergedFor(prs, d.current.value)
    && !OpenFor(prs, d.current.value)
  }

  /** Exactly when each phase is active: at most one documented step is taken, onto a phase nothing merged for. */
  lemma ActiveExactly(d: Documents, prs: seq<PullRequest>)
    ensures var s := Situated(d, prs);
            (forall phase :: s.active == Some(phase) <==>
              || (d.current == Some(phase) && phase in d.rows && !MergedFor(prs, phase))
              || (IsFinished(d, prs) && d.next == Some(phase) && phase in d.rows && !MergedFor(prs, phase)))
  {
    if d.current.Some? {
      SelectTwice(prs, d.current.value, HasMerged);
      SelectTwice(prs, d.current.value, Open);
    }
    if d.next.Some? {
      SelectTwice(prs, d.next.value, HasMerged);
    }
  }

  /** A successor is reported only for the documented current phase, and it is the documented next one. */
  lemma SuccessorIsDocumented(d: Documents, prs: seq<PullRequest>)
    ensures var s := Situated(d, prs);
            s.next.Some? <==> s.active.Some? && s.active == d.current && d.next.Some?
    ensures Situated(d, prs).next.Some? ==> Situated(d, prs).next == d.next
    ensures var s := Situated(d, prs);
            IsFinished(d, prs) ==> s.next == None
  {
    ActiveExactly(d, prs);
  }

  /** A phase is offered to be started only when no pull request of any kind exists for it. */
  lemma NextPhaseReadyExactly(d: Documents, prs: seq<PullRequest>)
    ensures var s := Situated(d, prs);
            s.state == NextPhaseReady <==>
              s.active.Some? && forall pr <- prs :: pr.phaseId != s.active.value
  {
    var s := Situated(d, prs);
    if s.active.Some? {
      var mine := Select(prs, OfPhase(s.active.value));
      if mine != [] {
        assert mine[0] in mine;
      }
    }
  }

  /** Nothing has merged for the active phase, so classifying it never finds a merged pull request. */
  lemma ActiveIsUnmerged(d: Documents, prs: seq<PullRequest>)
    requires Situated(d, prs).active.Some?
    ensures var phase := Situated(d, prs).active.value;
            !MergedFor(prs, phase) && Classify(Select(prs, OfPhase(phase))).state != Merged
    ensures Situated(d, prs).state != Merged
  {
    var phase := Situated(d, prs).active.value;
    ActiveExactly(d, prs);
    SelectTwice(prs, phase, HasMerged);
  }

  /** The roadmap is reported finished exactly when its last documented phase is. */
  lemma MergedExactly(d: Documents, prs: seq<PullRequest>)
    ensures Situated(d, prs).state == Merged <==>
      IsFinished(d, prs) && d.next.None? && d.rows[|d.rows| - 1] == d.current.value
  {
    if Situated(d, prs).active.Some? {
      ActiveIsUnmerged(d, prs);
    }
    if HasRow(d, d.current) {
      SelectTwice(prs, d.current.value, HasMerged);
      SelectTwice(prs, d.current.value, Open);
    }
  }

  // ----- what is said of the active phase -----

  ghost predicate IsOpenAt(prs: seq<PullRequest>, i: nat, phase: string)
    requires i < |prs|
  {
    prs[i].phaseId == phase && prs[i].isOpen
  }

  /** More than one open pull request is listed for the phase. */
  ghost predicate SeveralOpenFor(prs: seq<PullRequest>, phase: string) {
    exists i, j :: 0 <= i < j < |prs| && IsOpenAt(prs, i, phase) && IsOpenAt(prs, j, phase)
  }

  lemma OpenForAt(prs: seq<PullRequest>, phase: string)
    ensures OpenFor(prs, phase) <==> exists i :: 0 <= i < |prs| && IsOpenAt(prs, i, phase)
  {
    if pr :| pr in prs && pr.phaseId == phase && pr.isOpen {
      var i :| 0 <= i < |prs| && prs[i] == pr;
      assert IsOpenAt(prs, i, phase);
    }
    if i :| 0 <= i < |prs| && IsOpenAt(prs, i, phase) {
      assert prs[i] in prs;
    }
  }

  lemma OpenAtSnoc(prs: seq<PullRequest>, last: PullRequest, phase: string)
    ensures forall i :: 0 <= i < |prs| ==> (IsOpenAt(prs + [last], i, phase) <==> IsOpenAt(prs, i, phase))
    ensures IsOpenAt(prs + [last], |prs|, phase) <==> last.phaseId == phase && last.isOpen
  {}

  lemma OpenForSnoc(prs: seq<PullRequest>, last: PullRequest, phase: string)
    ensures OpenFor(prs + [last], phase) <==> OpenFor(prs, phase) || (last.phaseId == phase && last.isOpen)
  {
    OpenForAt(prs, phase);
    OpenForAt(prs + [last], phase);
    OpenAtSnoc(prs, last, phase);
  }

  lemma SeveralOpenForSnoc(prs: seq<PullRequest>, last: PullRequest, phase: string)
    ensures SeveralOpenFor(prs + [last], phase) <==>
              SeveralOpenFor(prs, phase) || (OpenFor(prs, phase) && last.phaseId == phase && last.isOpen)
  {
    OpenForAt(prs, phase);
    OpenAtSnoc(prs, last, phase);
  }

  lemma {:induction false} OpenCount(prs: seq<PullRequest>, phase: string)
    ensures |Select(Select(prs, OfPhase(phase)), Open)| >= 1 <==> OpenFor(prs, phase)
    ensures |Select(Select(prs, OfPhase(phase)), Open)| >= 2 <==> SeveralOpenFor(prs, phase)
  {
    if prs != [] {
      var init, last := prs[..|prs| - 1], prs[|prs| - 1];
      assert prs == init + [last];
      OpenCount(init, phase);
      OpenSnoc(init, last, phase);
      OpenForSnoc(init, last, phase);
      SeveralOpenForSnoc(init, last, phase);
    }
  }

  /** The documents cannot be squared with the pull requests, so that no phase is active. */
  ghost predicate Contradicted(d: Documents, prs: seq<PullRequest>) {
    || !(d.current.Some? && d.current.value in d.rows)
    || (MergedFor(prs, d.current.value) && OpenFor(prs, d.current.value))
    || (IsFinished(d, prs) && match d.next
        case None => d.rows[|d.rows| - 1] != d.current.value
        case Some(next) => next !in d.rows || MergedFor(prs, next))
  }

  lemma ContradictedExactly(d: Documents, prs: seq<PullRequest>)
    ensures ResolveActivePhase(d, prs).needsHuman <==> Contradicted(d, prs)
    ensures ResolveActivePhase(d, prs).needsHuman ==> ResolveActivePhase(d, prs).active.None?
  {
    if d.current.Some? {
      SelectTwice(prs, d.current.value, HasMerged);
      SelectTwice(prs, d.current.value, Open);
    }
    if d.next.Some? {
      SelectTwice(prs, d.next.value, HasMerged);
    }
  }

  lemma SomeOfPhase(prs: seq<PullRequest>, phase: string)
    ensures Select(prs, OfPhase(phase)) == [] <==> forall pr <- prs :: pr.phaseId != phase
  {
    if Select(prs, OfPhase(phase)) != [] {
      assert Select(prs, OfPhase(phase))[0] in Select(prs, OfPhase(phase));
    }
  }

  /**
   * A human is asked for exactly when the documents contradict the pull requests, when
   * several are open for the active phase, or when all of its pull requests were closed
   * without merging.
   */
  lemma HumanAttentionExactly(d: Documents, prs: seq<PullRequest>)
    ensures var s := Situated(d, prs);
            s.state == HumanAttentionRequired <==>
              || Contradicted(d, prs)
              || (s.active.Some? && SeveralOpenFor(prs, s.active.value))
              || (s.active.Some? && !OpenFor(prs, s.active.value) && exists pr <- prs :: pr.phaseId == s.active.value)
  {
    ContradictedExactly(d, prs);
    var s := Situated(d, prs);
    if s.active.Some? {
      ActiveIsUnmerged(d, prs);
      SelectTwice(prs, s.active.value, HasMerged);
      OpenCount(prs, s.active.value);
      SomeOfPhase(prs, s.active.value);
    }
  }

  /**
   * The pull request reported is the one open for the active phase, when there is exactly
   * one, and its draft flag and checks decide what is said of it.
   */
  lemma ReportedExactly(d: Documents, prs: seq<PullRequest>)
    ensures var s := Situated(d, prs);
            s.pullRequest.Some? <==>
              s.active.Some? && OpenFor(prs, s.active.value) && !SeveralOpenFor(prs, s.active.value)
    ensures var s := Situated(d, prs);
            s.pullRequest.Some? ==>
              var pr := s.pullRequest.value;
              && pr in prs && s.active == Some(pr.phaseId) && pr.isOpen
              && (s.state == InProgress <==> pr.isDraft)
              && (s.state == CiFails <==> !pr.isDraft && pr.ci == CiFailing)
              && (s.state == CiIsPending <==> !pr.isDraft && pr.ci in {CiPending, CiNone, CiUnknown})
              && (s.state == ReadyForReview <==> !pr.isDraft && pr.ci == CiPassing)
  {
    var s := Situated(d, prs);
    if s.active.Some? {
      OpenCount(prs, s.active.value);
      ActiveIsUnmerged(d, prs);
      SelectTwice(prs, s.active.value, HasMerged);
      SelectTwice(prs, s.active.value, Open);
    }
    if s.pullRequest.Some? {
      ReportedIsOnlyOpen(d, prs);
    }
  }

  /** What the look-up learns of the reported pull request. */
  lemma LookedUpFields(d: Documents, prs: seq<PullRequest>, describe: nat -> Detail)
    requires Discovered(d, prs, describe).pullRequest.Some?
    ensures var was, pr := Situated(d, prs).pullRequest, Discovered(d, prs, describe).pullRequest.value;
            && was.Some? && pr.number == was.value.number && pr.phaseId == was.value.phaseId
            && pr.isOpen && !pr.isMerged && pr.isDraft == describe(pr.number).isDraft
            && (pr.ci == CiPassing <==> AllPass(describe(pr.number).rollup))
            && (pr.ci == CiFailing <==> HasSome(describe(pr.number).rollup, Failing))
  {
    DiscoveryKeepsPhase(d, prs, describe);
    var was := Situated(d, prs).pullRequest;
    if was.Some? {
      AggregatedIsPessimistic(describe(was.value.number).rollup);
    }
  }

  // ----- the order of the pull requests does not matter -----

  lemma {:induction false} SelectedTimes(prs: seq<PullRequest>, c: Criterion, pr: PullRequest)
    ensures multiset(Select(prs, c))[pr] == if Meets(pr, c) then multiset(prs)[pr] else 0
  {
    if prs != [] {
      var init, last := prs[..|prs| - 1], prs[|prs| - 1];
      SelectedTimes(init, c, pr);
      assert prs == init + [last];
    }
  }

  lemma SelectPermuted(p: seq<PullRequest>, q: seq<PullRequest>, c: Criterion)
    requires multiset(p) == multiset(q)
    ensures multiset(Select(p, c)) == multiset(Select(q, c))
    ensures |Select(p, c)| == |Select(q, c)|
    ensures Select(p, c) == [] <==> Select(q, c) == []
  {
    forall pr
      ensures multiset(Select(p, c))[pr] == multiset(Select(q, c))[pr]
    {
      SelectedTimes(p, c, pr);
      SelectedTimes(q, c, pr);
    }
    assert multiset(Select(p, c)) == multiset(Select(q, c));
    assert |multiset(Select(p, c))| == |multiset(Select(q, c))|;
  }

  lemma ResolvePermuted(d: Documents, p: seq<PullRequest>, q: seq<PullRequest>)
    requires multiset(p) == multiset(q)
    ensures ResolveActivePhase(d, p) == ResolveActivePhase(d, q)
  {
    if d.current.Some? {
      SelectPermuted(p, q, OfPhase(d.current.value));
      SelectPermuted(Select(p, OfPhase(d.current.value)), Select(q, OfPhase(d.current.value)), HasMerged);
      SelectPermuted(Select(p, OfPhase(d.current.value)), Select(q, OfPhase(d.current.value)), Open);
    }
    if d.next.Some? {
      SelectPermuted(p, q, OfPhase(d.next.value));
      SelectPermuted(Select(p, OfPhase(d.next.value)), Select(q, OfPhase(d.next.value)), HasMerged);
    }
  }

  lemma OnlyElement(a: seq<PullRequest>, b: seq<PullRequest>)
    requires multiset(a) == multiset(b) && |a| == 1 && |b| == 1
    ensures a == b
  {
    assert a[0] in multiset(a) && a[0] in multiset(b);
  }

  /** Listing the pull requests in another order changes nothing, not even which one is reported. */
  lemma OrderIsIrrelevant(d: Documents, p: seq<PullRequest>, q: seq<PullRequest>)
    requires multiset(p) == multiset(q)
    ensures Situated(d, p) == Situated(d, q)
  {
    ResolvePermuted(d, p, q);
    var r := ResolveActivePhase(d, p);
    if r.active.Some? && !r.needsHuman {
      ActiveIsUnmerged(d, p);
      var mine, same := Select(p, OfPhase(r.active.value)), Select(q, OfPhase(r.active.value));
      SelectPermuted(p, q, OfPhase(r.active.value));
      SelectPermuted(mine, same, Open);
      SelectPermuted(mine, same, HasMerged);
      if |Select(mine, Open)| == 1 {
        OnlyElement(Select(mine, Open), Select(same, Open));
      }
    }
  }

  // ----- looking up the reported pull request -----

  datatype Detail = Detail(isDraft: bool, rollup: seq<Check>)

  ghost function Enriched(pr: PullRequest, detail: Detail): PullRequest {
    pr.(isOpen := true, isMerged := false, isDraft := detail.isDraft, ci := Aggregated(detail.rollup))
  }

  function Replaced(prs: seq<PullRequest>, update: PullRequest): seq<PullRequest> {
    seq(|prs|, i requires 0 <= i < |prs| => if prs[i].number == update.number then update else prs[i])
  }

  /** The situation, classified again once the reported open pull request's checks are known. */
  ghost function Discovered(d: Documents, prs: seq<PullRequest>, describe: nat -> Detail): Situation {
    var first := Situated(d, prs);
    if first.pullRequest.Some? && first.pullRequest.value.isOpen then
      var pr := first.pullRequest.value;
      Situated(d, Replaced(prs, Enriched(pr, describe(pr.number))))
    else first
  }

  /** How often a number is listed; more than once when a pull request moved between pages of the listing. */
  function Listings(prs: seq<PullRequest>, number: nat): nat {
    |Select(prs, Numbered(number))|
  }

  /** Every merged pull request of the current phase carries the number whose listings the look-up replaces. */
  ghost predicate Rewinds(d: Documents, prs: seq<PullRequest>) {
    var s := Situated(d, prs);
    && s.pullRequest.Some? && d.current.Some? && s.active != d.current
    && forall pr <- prs :: pr.phaseId == d.current.value && pr.isMerged ==> pr.number == s.pullRequest.value.number
  }

  lemma ReportedIsOnlyOpen(d: Documents, prs: seq<PullRequest>)
    requires var s := Situated(d, prs);
             s.active.Some? && s.pullRequest.Some?
    ensures var s := Situated(d, prs);
            var pr := s.pullRequest.value;
            && Select(Select(prs, OfPhase(s.active.value)), Open) == [pr]
            && pr in prs && pr.phaseId == s.active.value && pr.isOpen && !pr.isMerged
  {
    var s := Situated(d, prs);
    ActiveIsUnmerged(d, prs);
    var open := Select(Select(prs, OfPhase(s.active.value)), Open);
    assert open == [s.pullRequest.value];
    assert open[0] in open;
    assert !MergedFor(prs, s.active.value);
  }

  lemma ReplacedMembers(prs: seq<PullRequest>, update: PullRequest, pr: PullRequest)
    requires Listings(prs, update.number) >= 1
    ensures pr in Replaced(prs, update) <==> pr == update || (pr in prs && pr.number != update.number)
  {
    var listing := Select(prs, Numbered(update.number))[0];
    assert listing in Select(prs, Numbered(update.number));
    var k :| 0 <= k < |prs| && prs[k] == listing;
    assert Replaced(prs, update)[k] == update;
    if pr in prs && pr.number != update.number {
      var i :| 0 <= i < |prs| && prs[i] == pr;
      assert Replaced(prs, update)[i] == pr;
    }
  }

  lemma HasSuchReplaced(prs: seq<PullRequest>, update: PullRequest, phase: string, c: Criterion)
    requires Listings(prs, update.number) >= 1
    ensures HasSuch(Replaced(prs, update), phase, c) <==>
      || (update.phaseId == phase && Meets(update, c))
      || exists pr <- prs :: pr.number != update.number && pr.phaseId == phase && Meets(pr, c)
    ensures c == HasMerged ==> (HasSuch(Replaced(prs, update), phase, c) <==> MergedFor(Replaced(prs, update), phase))
    ensures c == Open ==> (HasSuch(Replaced(prs, update), phase, c) <==> OpenFor(Replaced(prs, update), phase))
  {
    SuchIs(Replaced(prs, update), phase);
    if pr :| pr in Replaced(prs, update) && pr.phaseId == phase && Meets(pr, c) {
      ReplacedMembers(prs, update, pr);
    }
    if update.phaseId == phase && Meets(update, c) {
      ReplacedMembers(prs, update, update);
    }
    if pr :| pr in prs && pr.number != update.number && pr.phaseId == phase && Meets(pr, c) {
      ReplacedMembers(prs, update, pr);
    }
  }

  lemma ReportedIsListed(prs: seq<PullRequest>, pr: PullRequest)
    requires pr in prs
    ensures Listings(prs, pr.number) >= 1
  {
    assert pr in Select(prs, Numbered(pr.number));
  }

  /** The active phase after the look-up, whatever is listed. */
  lemma ActiveAfterLookUp(d: Documents, prs: seq<PullRequest>, update: PullRequest)
    requires var s := Situated(d, prs);
             && s.active.Some? && s.pullRequest.Some? && update.number == s.pullRequest.value.number
             && update.phaseId == s.active.value && update.isOpen && !update.isMerged
    ensures Situated(d, Replaced(prs, update)).active
         == if Rewinds(d, prs) then d.current else Situated(d, prs).active
  {
    var s, after := Situated(d, prs), Replaced(prs, update);
    ReportedIsOnlyOpen(d, prs);
    ReportedIsListed(prs, s.pullRequest.value);
    ActiveExactly(d, prs);
    ActiveExactly(d, after);
    HasSuchReplaced(prs, update, d.current.value, HasMerged);
    HasSuchReplaced(prs, update, d.current.value, Open);
    HasSuchReplaced(prs, update, s.active.value, HasMerged);
    assert !MergedFor(prs, s.active.value);
    if s.active == d.current {
      assert !MergedFor(after, d.current.value);
    } else {
      assert IsFinished(d, prs);
      assert !OpenFor(after, d.current.value);
      assert MergedFor(after, d.current.value) <==> !Rewinds(d, prs);
    }
  }

  /**
   * The look-up keeps the active phase except when it replaces every merged pull request of
   * the current phase: those listed under the number of the open one it reports. This holds
   * for every list, whatever numbers repeat in it.
   */
  lemma DiscoveryKeepsActiveExactly(d: Documents, prs: seq<PullRequest>, describe: nat -> Detail)
    ensures Discovered(d, prs, describe).active == Situated(d, prs).active <==> !Rewinds(d, prs)
    ensures Rewinds(d, prs) ==> Discovered(d, prs, describe).active == d.current
  {
    var s := Situated(d, prs);
    if s.pullRequest.Some? {
      ReportedIsOnlyOpen(d, prs);
      var pr := s.pullRequest.value;
      ActiveAfterLookUp(d, prs, Enriched(pr, describe(pr.number)));
    }
  }

  // ----- what is said of the pull request after the look-up -----

  function Times(pr: PullRequest, n: nat): seq<PullRequest> {
    seq(n, _ => pr)
  }

  lemma OpenSnoc(prs: seq<PullRequest>, last: PullRequest, phase: string)
    ensures Select(Select(prs + [last], OfPhase(phase)), Open) ==
            Select(Select(prs, OfPhase(phase)), Open) + if last.phaseId == phase && last.isOpen then [last] else []
  {
    SelectSnoc(prs, last, OfPhase(phase));
    if last.phaseId == phase {
      SelectSnoc(Select(prs, OfPhase(phase)), last, Open);
    }
  }

  lemma SelectSnoc(prs: seq<PullRequest>, last: PullRequest, c: Criterion)
    ensures Select(prs + [last], c) == if Meets(last, c) then Select(prs, c) + [last] else Select(prs, c)
  {
    assert (prs + [last])[..|prs|] == prs;
  }

  lemma ReplacedSnoc(prs: seq<PullRequest>, last: PullRequest, update: PullRequest)
    ensures Replaced(prs + [last], update)
         == Replaced(prs, update) + [if last.number == update.number then update else last]
  {}

  lemma TimesSnoc(pr: PullRequest, n: nat)
    ensures Times(pr, n) + [pr] == Times(pr, n + 1)
  {}

  /** One more listing adds an open pull request to the phase exactly when it carries the number. */
  lemma OneMoreLookedUp(init: seq<PullRequest>, last: PullRequest, update: PullRequest)
    requires update.isOpen
    requires last.phaseId == update.phaseId && last.isOpen ==> last.number == update.number
    ensures Select(Select(Replaced(init + [last], update), OfPhase(update.phaseId)), Open)
         == Select(Select(Replaced(init, update), OfPhase(update.phaseId)), Open)
            + if last.number == update.number then [update] else []
    ensures Listings(init + [last], update.number)
         == Listings(init, update.number) + if last.number == update.number then 1 else 0
  {
    ReplacedSnoc(init, last, update);
    OpenSnoc(Replaced(init, update), if last.number == update.number then update else last, update.phaseId);
    SelectSnoc(init, last, Numbered(update.number));
  }

  /** Each listing of the number becomes one open pull request of the active phase, and no other is open there. */
  lemma {:induction false} OpenAfterLookUp(prs: seq<PullRequest>, update: PullRequest)
    requires update.isOpen
    requires forall pr <- prs :: pr.phaseId == update.phaseId && pr.isOpen ==> pr.number == update.number
    ensures Select(Select(Replaced(prs, update), OfPhase(update.phaseId)), Open)
         == Times(update, Listings(prs, update.number))
  {
    if prs != [] {
      var init, last := prs[..|prs| - 1], prs[|prs| - 1];
      assert prs == init + [last];
      OpenAfterLookUp(init, update);
      OneMoreLookedUp(init, last, update);
      TimesSnoc(update, Listings(init, update.number));
    }
  }

  /** In the active phase the look-up leaves the one pull request it reported, or several when it is listed repeatedly. */
  lemma ClassifiedAfterLookUp(d: Documents, prs: seq<PullRequest>, update: PullRequest)
    requires var s := Situated(d, prs);
             && s.active.Some? && s.pullRequest.Some? && update.number == s.pullRequest.value.number
             && update.phaseId == s.active.value && update.isOpen
    ensures Listings(prs, update.number) >= 1
    ensures Classify(Select(Replaced(prs, update), OfPhase(update.phaseId)))
         == if Listings(prs, update.number) == 1 then Finding(OpenState(update), Some(update))
            else Finding(HumanAttentionRequired, None)
  {
    var s := Situated(d, prs);
    ReportedIsOnlyOpen(d, prs);
    ReportedIsListed(prs, s.pullRequest.value);
    forall pr <- prs | pr.phaseId == update.phaseId && pr.isOpen
      ensures pr.number == update.number
    {
      assert pr in Select(prs, OfPhase(update.phaseId));
      assert pr in Select(Select(prs, OfPhase(update.phaseId)), Open);
    }
    OpenAfterLookUp(prs, update);
  }

  /** Taking the phase back needs the number twice: on the open pull request and on a merged one. */
  lemma RewindingNeedsRepeatedNumber(d: Documents, prs: seq<PullRequest>)
    requires Rewinds(d, prs)
    ensures Listings(prs, Situated(d, prs).pullRequest.value.number) >= 2
  {
    var s := Situated(d, prs);
    ReportedIsOnlyOpen(d, prs);
    ActiveExactly(d, prs);
    assert IsFinished(d, prs);
    var pr := s.pullRequest.value;
    var merged :| merged in prs && merged.phaseId == d.current.value && merged.isMerged;
    TwoMembers(Select(prs, Numbered(pr.number)), pr, merged);
  }

  lemma TwoMembers(prs: seq<PullRequest>, a: PullRequest, b: PullRequest)
    requires a in prs && b in prs && a != b
    ensures |prs| >= 2
  {
    var i :| 0 <= i < |prs| && prs[i] == a;
    var j :| 0 <= j < |prs| && prs[j] == b;
    assert i != j;
  }

  /** A resolved phase nothing is open or merged for has nothing to report. */
  lemma NothingToReport(d: Documents, prs: seq<PullRequest>)
    requires var s := Situated(d, prs);
             s.active.Some? && !OpenFor(prs, s.active.value)
    ensures var s := Situated(d, prs);
            && s.pullRequest.None?
            && s.state == (if forall pr <- prs :: pr.phaseId != s.active.value then NextPhaseReady
                           else HumanAttentionRequired)
  {
    var phase := Situated(d, prs).active.value;
    SelectTwice(prs, phase, Open);
    ActiveIsUnmerged(d, prs);
    NextPhaseReadyExactly(d, prs);
  }

  /** After taking the phase back nothing is reported of it, and it may even be offered to be started again. */
  lemma RewoundSituation(d: Documents, prs: seq<PullRequest>, describe: nat -> Detail)
    requires Rewinds(d, prs)
    ensures var found, number := Discovered(d, prs, describe), Situated(d, prs).pullRequest.value.number;
            && found.active == d.current && found.pullRequest.None?
            && found.state == (if forall pr <- prs :: pr.phaseId == d.current.value ==> pr.number == number
                               then NextPhaseReady else HumanAttentionRequired)
  {
    ReportedIsOnlyOpen(d, prs);
    DiscoveryKeepsActiveExactly(d, prs, describe);
    var pr := Situated(d, prs).pullRequest.value;
    var update := Enriched(pr, describe(pr.number));
    ReportedIsListed(prs, pr);
    ActiveExactly(d, prs);
    HasSuchReplaced(prs, update, d.current.value, Open);
    NothingToReport(d, Replaced(prs, update));
    NoneOfPhaseReplaced(prs, update, d.current.value);
  }

  lemma NoneOfPhaseReplaced(prs: seq<PullRequest>, update: PullRequest, phase: string)
    requires Listings(prs, update.number) >= 1 && update.phaseId != phase
    ensures (forall pr <- Replaced(prs, update) :: pr.phaseId != phase) <==>
            (forall pr <- prs :: pr.phaseId == phase ==> pr.number == update.number)
  {
    forall pr
      ensures pr in Replaced(prs, update) <==> pr == update || (pr in prs && pr.number != update.number)
    {
      ReplacedMembers(prs, update, pr);
    }
  }

  lemma SituatedByClassifying(d: Documents, prs: seq<PullRequest>)
    requires Situated(d, prs).active.Some?
    ensures var s := Situated(d, prs);
            var f := Classify(Select(prs, OfPhase(s.active.value)));
            s == Situation(s.active, SuccessorOf(d, s.active), f.pullRequest, f.state)
  {}

  /** What replacing the reported pull request's listings leaves when it keeps the phase. */
  lemma KeptByReplacing(d: Documents, prs: seq<PullRequest>, update: PullRequest)
    requires var s := Situated(d, prs);
             && s.active.Some? && s.pullRequest.Some? && update.number == s.pullRequest.value.number
             && update.phaseId == s.active.value && update.isOpen && !update.isMerged
    requires !Rewinds(d, prs)
    ensures Situated(d, Replaced(prs, update)) ==
            if Listings(prs, update.number) == 1
            then Situated(d, prs).(pullRequest := Some(update), state := OpenState(update))
            else Situated(d, prs).(pullRequest := None, state := HumanAttentionRequired)
  {
    ActiveAfterLookUp(d, prs, update);
    ClassifiedAfterLookUp(d, prs, update);
    SituatedByClassifying(d, prs);
    SituatedByClassifying(d, Replaced(prs, update));
  }

  /** What the look-up leaves when it keeps the phase. */
  lemma KeptSituation(d: Documents, prs: seq<PullRequest>, describe: nat -> Detail)
    requires Situated(d, prs).pullRequest.Some? && !Rewinds(d, prs)
    ensures var s := Situated(d, prs);
            var e := Enriched(s.pullRequest.value, describe(s.pullRequest.value.number));
            Discovered(d, prs, describe) ==
            if Listings(prs, e.number) == 1 then s.(pullRequest := Some(e), state := OpenState(e))
            else s.(pullRequest := None, state := HumanAttentionRequired)
  {
    ReportedIsOnlyOpen(d, prs);
    var pr := Situated(d, prs).pullRequest.value;
    KeptByReplacing(d, prs, Enriched(pr, describe(pr.number)));
  }

  /**
   * The look-up keeps the phase, its successor and the pull request, and only updates what is
   * said of it, exactly when the reported number is listed once.
   */
  lemma DiscoveryKeepsPhase(d: Documents, prs: seq<PullRequest>, describe: nat -> Detail)
    ensures var s, found := Situated(d, prs), Discovered(d, prs, describe);
            match s.pullRequest
            case None => found == s
            case Some(pr) =>
              var e := Enriched(pr, describe(pr.number));
              && (Listings(prs, pr.number) == 1 <==> found == s.(pullRequest := Some(e), state := OpenState(e)))
              && (Listings(prs, pr.number) != 1 ==>
                    found.pullRequest.None? && found.state in {HumanAttentionRequired, NextPhaseReady})
              && (Listings(prs, pr.number) != 1 && !Rewinds(d, prs) ==>
                    found == s.(pullRequest := None, state := HumanAttentionRequired))
  {
    var s := Situated(d, prs);
    if s.pullRequest.Some? {
      if Rewinds(d, prs) {
        RewindingNeedsRepeatedNumber(d, prs);
        RewoundSituation(d, prs, describe);
      } else {
        KeptSituation(d, prs, describe);
      }
    }
  }

  /** When no number is listed twice, as GitHub gives them page by page, the look-up keeps the phase. */
  lemma DistinctNumbersKeepPhase(d: Documents, prs: seq<PullRequest>, describe: nat -> Detail)
    requires forall i, j :: 0 <= i < j < |prs| ==> prs[i].number != prs[j].number
    ensures !Rewinds(d, prs) && Discovered(d, prs, describe).active == Situated(d, prs).active
    ensures var s := Situated(d, prs);
            s.pullRequest.Some? ==> Listings(prs, s.pullRequest.value.number) == 1
  {
    var s := Situated(d, prs);
    DiscoveryKeepsActiveExactly(d, prs, describe);
    if s.pullRequest.Some? {
      ReportedIsOnlyOpen(d, prs);
      ReportedIsListed(prs, s.pullRequest.value);
      ListedOnce(prs, s.pullRequest.value.number);
    }
    if Rewinds(d, prs) {
      RewindingNeedsRepeatedNumber(d, prs);
    }
  }

  lemma {:induction false} NoneMeets(prs: seq<PullRequest>, c: Criterion)
    requires forall i :: 0 <= i < |prs| ==> !Meets(prs[i], c)
    ensures Select(prs, c) == []
  {
    if prs != [] {
      NoneMeets(prs[..|prs| - 1], c);
    }
  }

  lemma {:induction false} ListedOnce(prs: seq<PullRequest>, number: nat)
    requires forall i, j :: 0 <= i < j < |prs| ==> prs[i].number != prs[j].number
    ensures Listings(prs, number) <= 1
  {
    if prs != [] {
      var init, last := prs[..|prs| - 1], prs[|prs| - 1];
      assert prs == init + [last];
      SelectSnoc(init, last, Numbered(number));
      if last.number == number {
        NoneMeets(init, Numbered(number));
      } else {
        ListedOnce(init, number);
      }
    }
  }

  lemma GreenIsReady(pr: PullRequest, detail: Detail)
    ensures OpenState(Enriched(pr, detail)) == ReadyForReview <==> !detail.isDraft && AllPass(detail.rollup)
  {
    AggregatedIsPessimistic(detail.rollup);
  }

  /** Ready for review means: one open pull request, listed once, not a draft, with checks of which every one is known to pass. */
  lemma ReadyExactly(d: Documents, prs: seq<PullRequest>, describe: nat -> Detail)
    ensures var s := Situated(d, prs);
            Discovered(d, prs, describe).state == ReadyForReview <==>
              && s.pullRequest.Some? && Listings(prs, s.pullRequest.value.number) == 1
              && var detail := describe(s.pullRequest.value.number);
                 !detail.isDraft && AllPass(detail.rollup)
  {
    DiscoveryKeepsPhase(d, prs, describe);
    var s := Situated(d, prs);
    if s.pullRequest.Some? {
      GreenIsReady(s.pullRequest.value, describe(s.pullRequest.value.number));
    }
  }

  lemma UnfinishedStates(pr: PullRequest, detail: Detail)
    ensures var state := OpenState(Enriched(pr, detail));
            && (state == InProgress <==> detail.isDraft)
            && (state == CiFails <==> !detail.isDraft && HasSome(detail.rollup, Failing))
            && (state == CiIsPending <==>
                  !detail.isDraft && !HasSome(detail.rollup, Failing) && !AllPass(detail.rollup))
  {
    AggregatedIsPessimistic(detail.rollup);
  }

  /** A reported pull request, listed once, that is not ready is a draft, has a failing check, or lacks a complete result. */
  lemma UnfinishedExactly(d: Documents, prs: seq<PullRequest>, describe: nat -> Detail)
    requires Situated(d, prs).pullRequest.Some?
    ensures var number := Situated(d, prs).pullRequest.value.number;
            var state, detail, once := Discovered(d, prs, describe).state, describe(number), Listings(prs, number) == 1;
            && (state == InProgress <==> once && detail.isDraft)
            && (state == CiFails <==> once && !detail.isDraft && HasSome(detail.rollup, Failing))
            && (state == CiIsPending <==>
                  once && !detail.isDraft && !HasSome(detail.rollup, Failing) && !AllPass(detail.rollup))
  {
    DiscoveryKeepsPhase(d, prs, describe);
    var pr := Situated(d, prs).pullRequest.value;
    UnfinishedStates(pr, describe(pr.number));
  }

  lemma SelectOnly(pr: PullRequest, c: Criterion)
    ensures Select([pr], c) == if Meets(pr, c) then [pr] else []
  {
    assert [pr][..0] == [];
  }

  lemma SelectSecond(first: PullRequest, second: PullRequest, c: Criterion)
    requires !Meets(first, c) && Meets(second, c)
    ensures Select([first, second], c) == [second]
  {
    SelectOnly(first, c);
    assert [first, second][..1] == [first];
  }

  lemma ActiveAfterMerged(d: Documents, done: PullRequest, open: PullRequest)
    requires d.current == Some(done.phaseId) && d.next == Some(open.phaseId) && done.phaseId != open.phaseId
    requires d.rows == [done.phaseId, open.phaseId]
    requires done.isMerged && !done.isOpen && open.isOpen && !open.isMerged
    ensures Situated(d, [done, open]).active == d.next
  {
    assert done in [done, open] && open in [done, open];
    ActiveExactly(d, [done, open]);
    assert IsFinished(d, [done, open]);
  }

  lemma OpenAfterMerged(d: Documents, done: PullRequest, open: PullRequest)
    requires d.current == Some(done.phaseId) && d.next == Some(open.phaseId) && done.phaseId != open.phaseId
    requires d.rows == [done.phaseId, open.phaseId]
    requires done.isMerged && !done.isOpen && open.isOpen && !open.isMerged
    ensures Situated(d, [done, open]).active == d.next && Situated(d, [done, open]).pullRequest == Some(open)
  {
    ActiveAfterMerged(d, done, open);
    SituatedByClassifying(d, [done, open]);
    SelectSecond(done, open, OfPhase(open.phaseId));
    SelectOnly(open, Open);
  }

  /** Were a merged and an open pull request to share a number, the look-up would take the phase back. */
  lemma SharedNumberRewindsPhase(d: Documents, done: PullRequest, open: PullRequest, describe: nat -> Detail)
    requires d.current == Some(done.phaseId) && d.next == Some(open.phaseId) && done.phaseId != open.phaseId
    requires d.rows == [done.phaseId, open.phaseId]
    requires done.isMerged && !done.isOpen && open.isOpen && !open.isMerged
    requires done.number == open.number
    ensures Situated(d, [done, open]).active == d.next
    ensures Discovered(d, [done, open], describe).active == d.current
  {
    OpenAfterMerged(d, done, open);
    var e := Enriched(open, describe(open.number));
    assert Replaced([done, open], e) == [e, e];
    ActiveExactly(d, [e, e]);
  }

  // ----- pull requests are found by their branch -----

  /** A pull request as listed, before its branch is mapped to a phase. */
  datatype Listed = Listed(branch: string, pr: PullRequest)

  /** Listed pull requests whose branch names a phase, filed under that phase. */
  function Filed(listed: seq<Listed>): seq<PullRequest> {
    if listed == [] then []
    else
      var last := listed[|listed| - 1];
      var phase := PhaseIdForBranch(last.branch);
      var before := Filed(listed[..|listed| - 1]);
      if phase.Some? then before + [last.pr.(phaseId := phase.value)] else before
  }

  lemma {:induction false} FiledIsFound(listed: seq<Listed>, i: nat)
    requires i < |listed| && PhaseIdForBranch(listed[i].branch).Some?
    ensures listed[i].pr.(phaseId := PhaseIdForBranch(listed[i].branch).value) in Filed(listed)
  {
    if i < |listed| - 1 {
      FiledIsFound(listed[..|listed| - 1], i);
    }
  }

  /**
   * No phase is offered to be started twice: once a pull request exists on a branch that
   * begins with the phase's expected prefix, it is seen, provided the documents write the
   * phase without superfluous zeros.
   */
  lemma NamedPullRequestIsSeen(d: Documents, listed: seq<Listed>, i: nat, id: string, description: string)
    requires i < |listed| && IsPhaseId(id) && IsMinimal(id)
    requires listed[i].branch == ExpectedBranchPrefix(id) + description
    ensures var s := Situated(d, Filed(listed));
            s.active == Some(id) ==> s.state != NextPhaseReady
  {
    PrefixReadsBack(id, description);
    FiledIsFound(listed, i);
    NextPhaseReadyExactly(d, Filed(listed));
  }

  lemma {:induction false} FiledPhasesAreMinimal(listed: seq<Listed>)
    ensures forall pr <- Filed(listed) :: IsPhaseId(pr.phaseId) && IsMinimal(pr.phaseId)
  {
    if listed != [] {
      FiledPhasesAreMinimal(listed[..|listed| - 1]);
      var branch := listed[|listed| - 1].branch;
      if PhaseIdForBranch(branch).Some? {
        BranchBelongsExactly(branch, PhaseIdForBranch(branch).value);
      }
    }
  }

  /** A phase documented with a superfluous zero is always offered anew: no branch is ever filed under it. */
  lemma PaddedPhaseIsNeverSeen(d: Documents, listed: seq<Listed>, id: string)
    requires IsPhaseId(id) && !IsMinimal(id) && d.current == Some(id) && id in d.rows
    ensures Situated(d, Filed(listed)).active == Some(id) && Situated(d, Filed(listed)).state == NextPhaseReady
  {
    FiledPhasesAreMinimal(listed);
    ActiveExactly(d, Filed(listed));
    NextPhaseReadyExactly(d, Filed(listed));
  }
}

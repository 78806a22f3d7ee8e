/**
 * Branch names of migration phases: the printer of a phase's branch prefix, and the parser
 * that maps a branch back to its phase, `^migration/0*([0-9]+[a-z]?)(?:[-/]|$)`, as the
 * backtracking search its greedy operators prescribe.
 */
module BranchNames {
  import opened Prelude
  import opened Digits

  const BRANCH_PREFIX := "migration/"

  predicate IsLower(c: char) {
    'a' <= c <= 'z'
  }

  /** The end of the digits that start at `i`. */
  function DigitsEnd(s: string, i: nat): (end: nat)
    requires i <= |s|
    ensures i <= end <= |s|
    ensures forall k :: i <= k < end ==> IsDigit(s[k])
    ensures end < |s| ==> !IsDigit(s[end])
    decreases |s| - i
  {
    if i < |s| && IsDigit(s[i]) then DigitsEnd(s, i + 1) else i
  }

  function ZerosEnd(s: string, i: nat): (end: nat)
    requires i <= |s|
    ensures i <= end <= |s|
    ensures forall k :: i <= k < end ==> s[k] == '0'
    ensures end < |s| ==> s[end] != '0'
    decreases |s| - i
  {
    if i < |s| && s[i] == '0' then ZerosEnd(s, i + 1) else i
  }

  // ----- the parser's search -----

  /** `(?:[-/]|$)`: `$` also matches just before a final newline. */
  predicate EndsName(s: string, i: nat)
    requires i <= |s|
  {
    i == |s| || s[i] == '-' || s[i] == '/' || (s[i] == '\n' && i == |s| - 1)
  }

  function MatchSuffix(s: string, start: nat, end: nat): Option<string>
    requires start <= end <= |s|
  {
    if end < |s| && IsLower(s[end]) && EndsName(s, end + 1) then Some(s[start..end + 1])
    else if EndsName(s, end) then Some(s[start..end])
    else None
  }

  /** `[0-9]+` from `start`, longest first. */
  function MatchDigits(s: string, start: nat, end: nat): Option<string>
    requires start <= end <= |s|
  {
    if end == start then None
    else
      var found := MatchSuffix(s, start, end);
      if found.Some? then found else MatchDigits(s, start, end - 1)
  }

  /** `0*`, longest first. */
  function MatchZeros(s: string, zeros: nat): Option<string>
    requires zeros <= |s|
  {
    var found := MatchDigits(s, zeros, DigitsEnd(s, zeros));
    if found.Some? || zeros == 0 then found else MatchZeros(s, zeros - 1)
  }

  function PhaseIdForBranch(branch: string): Option<string> {
    if BRANCH_PREFIX <= branch then
      var rest := branch[|BRANCH_PREFIX|..];
      MatchZeros(rest, ZerosEnd(rest, 0))
    else None
  }

  // ----- the printer -----

  function Padded(digits: string): string {
    Zeros(if |digits| < 2 then 2 - |digits| else 0) + digits
  }

  function ExpectedBranchPrefix(phaseId: string): string {
    var end := DigitsEnd(phaseId, 0);
    if end > 0 && forall c <- phaseId[end..] :: IsLower(c)
    then BRANCH_PREFIX + Padded(phaseId[..end]) + phaseId[end..] + "-"
    else BRANCH_PREFIX + phaseId + "-"
  }

  // ----- phase identifiers -----

  /** `[0-9]+[a-z]?` */
  predicate IsPhaseId(id: string) {
    var end := DigitsEnd(id, 0);
    end > 0 && (end == |id| || (end == |id| - 1 && IsLower(id[end])))
  }

  predicate IsMinimal(id: string)
    requires IsPhaseId(id)
  {
    id[0] != '0' || DigitsEnd(id, 0) == 1
  }

  /** Where the zeros before a digit run that ends at `end` stop, keeping one digit. */
  function NameStart(s: string): nat
    requires DigitsEnd(s, 0) > 0
    ensures NameStart(s) < DigitsEnd(s, 0)
  {
    if ZerosEnd(s, 0) < DigitsEnd(s, 0) then ZerosEnd(s, 0) else DigitsEnd(s, 0) - 1
  }

  function Minimal(id: string): string
    requires IsPhaseId(id)
  {
    id[NameStart(id)..]
  }

  // ----- the search finds what one left-to-right scan would -----

  lemma ZerosAreDigits(s: string)
    ensures ZerosEnd(s, 0) <= DigitsEnd(s, 0)
  {}

  lemma {:induction false} ShorterRunsFail(s: string, start: nat, end: nat)
    requires start <= |s| && start <= end < DigitsEnd(s, start)
    ensures MatchDigits(s, start, end) == None
  {
    if start < end {
      ShorterRunsFail(s, start, end - 1);
      assert IsDigit(s[end]);
    }
  }

  lemma DigitsMatchWhole(s: string, start: nat)
    requires start <= |s|
    ensures var end := DigitsEnd(s, start);
            MatchDigits(s, start, end) == if start < end then MatchSuffix(s, start, end) else None
  {
    var end := DigitsEnd(s, start);
    if start < end && MatchSuffix(s, start, end).None? {
      ShorterRunsFail(s, start, end - 1);
    }
  }

  lemma SameDigitsEnd(s: string, start: nat)
    requires start <= DigitsEnd(s, 0)
    ensures DigitsEnd(s, start) == DigitsEnd(s, 0)
  {}

  lemma {:induction false} FewerZerosFail(s: string, zeros: nat)
    requires zeros <= DigitsEnd(s, 0) && MatchSuffix(s, zeros, DigitsEnd(s, 0)).None?
    ensures MatchZeros(s, zeros) == None
  {
    SameDigitsEnd(s, zeros);
    DigitsMatchWhole(s, zeros);
    if zeros > 0 {
      FewerZerosFail(s, zeros - 1);
    }
  }

  /** Backtracking never matters but to give back one zero of an all-zero number. */
  lemma SearchIsScan(s: string)
    ensures MatchZeros(s, ZerosEnd(s, 0))
         == if DigitsEnd(s, 0) == 0 then None else MatchSuffix(s, NameStart(s), DigitsEnd(s, 0))
  {
    var zeros, end := ZerosEnd(s, 0), DigitsEnd(s, 0);
    ZerosAreDigits(s);
    SameDigitsEnd(s, zeros);
    DigitsMatchWhole(s, zeros);
    if zeros < end {
      if MatchSuffix(s, zeros, end).None? {
        FewerZerosFail(s, zeros);
      }
    } else if end > 0 {
      SameDigitsEnd(s, zeros - 1);
      DigitsMatchWhole(s, zeros - 1);
      if MatchSuffix(s, zeros - 1, end).None? {
        FewerZerosFail(s, zeros - 1);
      }
    }
  }

  // ----- which branches belong to which phase -----

  /** `branch` is `id`'s: its number may have extra zeros in front, and its name ends there or goes on after `-` or `/`. */
  ghost predicate Spells(branch: string, id: string, zeros: nat, tail: string) {
    && branch == "migration/" + (Zeros(zeros) + id + tail)
    && (tail == "" || tail[0] == '-' || tail[0] == '/' || tail == "\n")
  }

  lemma TailEndsName(tail: string)
    ensures EndsName(tail, 0) <==> tail == "" || tail[0] == '-' || tail[0] == '/' || tail == "\n"
  {}

  /** Digits without a superfluous zero, then at most one small letter. */
  ghost predicate IsMinimalName(id: string, digits: nat) {
    && 0 < digits <= |id| && (forall k :: 0 <= k < digits ==> '0' <= id[k] <= '9')
    && (digits == |id| || (digits == |id| - 1 && 'a' <= id[digits] <= 'z'))
    && (id[0] != '0' || digits == 1)
  }

  /** The minimal identifiers of phases. */
  lemma MinimalNameExactly(id: string)
    ensures IsPhaseId(id) && IsMinimal(id) <==> exists digits :: IsMinimalName(id, digits)
  {
    if IsPhaseId(id) && IsMinimal(id) {
      assert IsMinimalName(id, DigitsEnd(id, 0));
    }
    if digits :| IsMinimalName(id, digits) {
      DigitsEndIs(id, digits);
    }
  }

  lemma DigitsEndIs(s: string, n: nat)
    requires n <= |s| && (forall k :: 0 <= k < n ==> IsDigit(s[k])) && (n < |s| ==> !IsDigit(s[n]))
    ensures DigitsEnd(s, 0) == n
  {}

  lemma ZerosEndIs(s: string, n: nat)
    requires n <= |s| && (forall k :: 0 <= k < n ==> s[k] == '0') && (n < |s| ==> s[n] != '0')
    ensures ZerosEnd(s, 0) == n
  {}

  lemma SpelledRuns(s: string, id: string, zeros: nat, tail: string)
    requires IsPhaseId(id) && IsMinimal(id) && EndsName(tail, 0) && s == Zeros(zeros) + id + tail
    ensures DigitsEnd(s, 0) == zeros + DigitsEnd(id, 0) && NameStart(s) == zeros
  {
    var end := DigitsEnd(id, 0);
    assert forall k :: 0 <= k < zeros ==> s[k] == '0';
    assert forall k :: zeros <= k < zeros + |id| ==> s[k] == id[k - zeros];
    assert zeros + |id| < |s| ==> s[zeros + |id|] == tail[0];
    DigitsEndIs(s, zeros + end);
    ZerosEndIs(s, if id[0] == '0' then zeros + 1 else zeros);
  }

  lemma SpelledIsFound(branch: string, id: string, zeros: nat, tail: string)
    requires IsPhaseId(id) && IsMinimal(id) && Spells(branch, id, zeros, tail)
    ensures PhaseIdForBranch(branch) == Some(id)
  {
    var s := Zeros(zeros) + id + tail;
    assert branch[|BRANCH_PREFIX|..] == s;
    TailEndsName(tail);
    SpelledRuns(s, id, zeros, tail);
    SearchIsScan(s);
    var end := DigitsEnd(s, 0);
    assert s[zeros..zeros + |id|] == id;
    assert zeros + |id| < |s| ==> s[zeros + |id|] == tail[0];
  }

  lemma ZerosBeforeName(s: string)
    requires DigitsEnd(s, 0) > 0
    ensures s[..NameStart(s)] == Zeros(NameStart(s))
  {
    ZerosAreDigits(s);
  }

  lemma SliceRunsTo(s: string, slice: string, from: nat, end: nat)
    requires end <= |slice| && from + |slice| <= |s| && forall k :: 0 <= k < |slice| ==> slice[k] == s[from + k]
    requires forall k :: from <= k < from + end ==> IsDigit(s[k])
    requires from + end < |s| ==> !IsDigit(s[from + end])
    ensures DigitsEnd(slice, 0) == end
  {
    DigitsEndIs(slice, end);
  }

  lemma SliceAt(s: string, from: nat, to: nat)
    requires from <= to <= |s|
    ensures |s[from..to]| == to - from && forall k :: 0 <= k < to - from ==> s[from..to][k] == s[from + k]
  {}

  lemma SliceRuns(s: string, from: nat, to: nat)
    requires from <= DigitsEnd(s, 0) <= to <= |s|
    ensures DigitsEnd(s[from..to], 0) == DigitsEnd(s, 0) - from
  {
    var slice, end := s[from..to], DigitsEnd(s, 0);
    SliceAt(s, from, to);
    assert from + (end - from) == end;
    SliceRunsTo(s, slice, from, end - from);
  }

  lemma FoundIsPhaseId(s: string, to: nat)
    requires DigitsEnd(s, 0) > 0 && to <= |s|
    requires to == DigitsEnd(s, 0) || (to == DigitsEnd(s, 0) + 1 && IsLower(s[DigitsEnd(s, 0)]))
    ensures IsPhaseId(s[NameStart(s)..to]) && IsMinimal(s[NameStart(s)..to])
  {
    ZerosAreDigits(s);
    SliceRuns(s, NameStart(s), to);
  }

  lemma FoundInRest(s: string) returns (zeros: nat, tail: string)
    requires MatchZeros(s, ZerosEnd(s, 0)).Some?
    ensures var id := MatchZeros(s, ZerosEnd(s, 0)).value;
            IsPhaseId(id) && IsMinimal(id) && s == Zeros(zeros) + id + tail && EndsName(tail, 0)
  {
    SearchIsScan(s);
    var id := MatchZeros(s, ZerosEnd(s, 0)).value;
    zeros := NameStart(s);
    ZerosBeforeName(s);
    FoundIsPhaseId(s, zeros + |id|);
    tail := s[zeros + |id|..];
    SplitAt(s, zeros, zeros + |id|);
    TailEnds(s, zeros + |id|);
  }

  lemma TailEnds(s: string, i: nat)
    requires i <= |s|
    ensures EndsName(s[i..], 0) <==> EndsName(s, i)
  {}

  lemma FoundIsSpelled(branch: string) returns (zeros: nat, tail: string)
    requires PhaseIdForBranch(branch).Some?
    ensures var id := PhaseIdForBranch(branch).value;
            IsPhaseId(id) && IsMinimal(id) && Spells(branch, id, zeros, tail)
  {
    zeros, tail := FoundInRest(branch[|BRANCH_PREFIX|..]);
    PrefixSplit(BRANCH_PREFIX, branch);
    TailEndsName(tail);
  }

  lemma PrefixSplit(prefix: string, s: string)
    requires prefix <= s
    ensures s == prefix + s[|prefix|..]
  {}

  lemma SplitAt(s: string, i: nat, j: nat)
    requires i <= j <= |s|
    ensures s == s[..i] + s[i..j] + s[j..] && s == s[..j] + s[j..]
  {}

  /** A branch is mapped to a phase exactly when it spells that phase's minimal identifier. */
  lemma BranchBelongsExactly(branch: string, id: string)
    ensures PhaseIdForBranch(branch) == Some(id) <==>
      (exists digits :: IsMinimalName(id, digits)) && exists zeros, tail :: Spells(branch, id, zeros, tail)
  {
    MinimalNameExactly(id);
    if PhaseIdForBranch(branch) == Some(id) {
      var zeros, tail := FoundIsSpelled(branch);
      assert Spells(branch, id, zeros, tail);
    }
    if IsPhaseId(id) && IsMinimal(id) && exists zeros, tail :: Spells(branch, id, zeros, tail) {
      var zeros, tail :| Spells(branch, id, zeros, tail);
      SpelledIsFound(branch, id, zeros, tail);
    }
  }

  // ----- printing and parsing -----

  lemma MinimalIsMinimal(id: string)
    requires IsPhaseId(id)
    ensures IsPhaseId(Minimal(id)) && IsMinimal(Minimal(id))
    ensures id == Zeros(NameStart(id)) + Minimal(id)
    ensures Minimal(id) == id <==> IsMinimal(id)
  {
    ZerosAreDigits(id);
    ZerosBeforeName(id);
    SliceRuns(id, NameStart(id), |id|);
    assert Minimal(id) == id[NameStart(id)..|id|];
  }

  function Padding(id: string): nat {
    if DigitsEnd(id, 0) < 2 then 2 - DigitsEnd(id, 0) else 0
  }

  lemma PrefixText(id: string)
    requires IsPhaseId(id)
    ensures ExpectedBranchPrefix(id) == BRANCH_PREFIX + (Zeros(Padding(id)) + id) + "-"
  {
    var end := DigitsEnd(id, 0);
    var head, rest := id[..end], id[end..];
    assert head + rest == id;
    Associate(Zeros(Padding(id)), head, rest);
    Associate(BRANCH_PREFIX, Padded(head), rest);
    assert forall c <- rest :: IsLower(c);
  }

  /** The printed prefix: the identifier with a zero before a single digit. */
  lemma PrefixIs(id: string, digits: nat)
    requires IsMinimalName(id, digits)
    ensures ExpectedBranchPrefix(id) == "migration/" + ((if digits == 1 then "0" else "") + id) + "-"
  {
    DigitsEndIs(id, digits);
    PrefixText(id);
    assert Zeros(0) == "" && Zeros(1) == "0";
  }

  lemma Associate(a: string, b: string, c: string)
    ensures (a + b) + c == a + (b + c)
  {}

  lemma JoinZeros(a: nat, b: nat, s: string)
    ensures Zeros(a) + (Zeros(b) + s) == Zeros(a + b) + s
  {
    assert Zeros(a) + Zeros(b) == Zeros(a + b);
    Associate(Zeros(a), Zeros(b), s);
  }

  lemma Regroup(text: string, a: string, b: string, c: string, d: string)
    requires text == a + b + c
    ensures text + d == a + (b + (c + d))
  {}

  lemma JoinMoreZeros(pad: nat, zeros: nat, s: string, rest: string)
    requires s == Zeros(zeros) + rest
    ensures Zeros(pad) + s == Zeros(pad + zeros) + rest
  {
    JoinZeros(pad, zeros, rest);
  }

  lemma PaddedIsMinimal(id: string)
    requires IsPhaseId(id)
    ensures Zeros(Padding(id)) + id == Zeros(Padding(id) + NameStart(id)) + Minimal(id)
  {
    MinimalIsMinimal(id);
    JoinMoreZeros(Padding(id), NameStart(id), id, Minimal(id));
  }

  lemma PrefixIsMinimal(id: string)
    requires IsPhaseId(id)
    ensures ExpectedBranchPrefix(id) == BRANCH_PREFIX + (Zeros(Padding(id) + NameStart(id)) + Minimal(id)) + "-"
  {
    PrefixText(id);
    PaddedIsMinimal(id);
  }

  lemma PrefixSpells(id: string, description: string) returns (zeros: nat)
    requires IsPhaseId(id)
    ensures ExpectedBranchPrefix(id) + description == BRANCH_PREFIX + (Zeros(zeros) + Minimal(id) + ("-" + description))
  {
    zeros := Padding(id) + NameStart(id);
    PrefixIsMinimal(id);
    Regroup(ExpectedBranchPrefix(id), BRANCH_PREFIX, Zeros(zeros) + Minimal(id), "-", description);
  }

  /** A phase's own branch prefix, followed by any description, is read back as that phase without superfluous zeros. */
  lemma PrefixReadsBack(id: string, description: string)
    requires IsPhaseId(id)
    ensures PhaseIdForBranch(ExpectedBranchPrefix(id) + description) == Some(Minimal(id))
    ensures PhaseIdForBranch(ExpectedBranchPrefix(id) + description) == Some(id) <==> IsMinimal(id)
  {
    MinimalIsMinimal(id);
    var zeros := PrefixSpells(id, description);
    SpelledIsFound(ExpectedBranchPrefix(id) + description, Minimal(id), zeros, "-" + description);
  }

  /** Two phases claim the same branch only when they differ by leading zeros at most. */
  lemma PhasesClaimOwnBranches(id: string, other: string, description: string)
    requires IsPhaseId(id) && IsPhaseId(other)
    ensures PhaseIdForBranch(ExpectedBranchPrefix(other) + description) == Some(Minimal(id))
       <==> Minimal(id) == Minimal(other)
    ensures IsMinimal(id) && IsMinimal(other) && id != other ==>
      PhaseIdForBranch(ExpectedBranchPrefix(other) + description) != Some(id)
  {
    PrefixReadsBack(other, description);
    MinimalIsMinimal(id);
    MinimalIsMinimal(other);
  }
}

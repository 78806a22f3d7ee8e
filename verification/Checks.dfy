/** Reducing a pull request's check rollup to one state, pessimistically. */
module Checks {
  import opened Prelude

  datatype Ci = CiNone | CiPending | CiPassing | CiFailing | CiUnknown

  /** A JSON member: absent, null, or a text. */
  datatype Member = Absent | Null | Given(text: string)

  /** A check run carries `conclusion` or `status`; a commit status carries `state`. */
  datatype Check = Check(name: Member, context: Member, conclusion: Member, status: Member, state: Member)

  datatype Verdict = Failing | Pending | Passing

  const FAILING_CONCLUSIONS: set<string> := {"FAILURE", "TIMED_OUT", "CANCELLED", "ACTION_REQUIRED", "STARTUP_FAILURE"}
  const PASSING_CONCLUSIONS: set<string> := {"SUCCESS", "NEUTRAL", "SKIPPED"}
  const FAILING_STATES: set<string> := {"FAILURE", "ERROR"}
  const PASSING_STATES: set<string> := {"SUCCESS"}

  function Upper(c: char): char {
    if 'a' <= c <= 'z' then c - 'a' + 'A' else c
  }

  function Uppered(m: Member): string {
    if m.Given? then seq(|m.text|, i requires 0 <= i < |m.text| => Upper(m.text[i])) else ""
  }

  predicate IsRun(c: Check) {
    c.conclusion != Absent || c.status != Absent
  }

  function Judge(c: Check): Verdict {
    if IsRun(c) then
      if Uppered(c.status) != "" && Uppered(c.status) != "COMPLETED" then Pending
      else if Uppered(c.conclusion) in FAILING_CONCLUSIONS then Failing
      else if Uppered(c.conclusion) in PASSING_CONCLUSIONS then Passing
      else Pending
    else if Uppered(c.state) in FAILING_STATES then Failing
    else if Uppered(c.state) in PASSING_STATES then Passing
    else Pending
  }

  function NameOf(c: Check): string {
    if c.name.Given? && c.name.text != "" then c.name.text
    else if c.context.Given? && c.context.text != "" then c.context.text
    else "unnamed check"
  }

  ghost predicate HasSome(rollup: seq<Check>, v: Verdict) {
    exists c <- rollup :: Judge(c) == v
  }

  /** The names of the failing checks, in order. */
  ghost function FailingNames(rollup: seq<Check>): seq<string> {
    if rollup == [] then []
    else
      var before, last := FailingNames(rollup[..|rollup| - 1]), rollup[|rollup| - 1];
      if Judge(last) == Failing then before + [NameOf(last)] else before
  }

  /** The state of a rollup. */
  ghost function Aggregated(rollup: seq<Check>): Ci {
    if rollup == [] then CiNone
    else if HasSome(rollup, Failing) then CiFailing
    else if HasSome(rollup, Pending) then CiPending
    else CiPassing
  }

  ghost predicate AllPass(rollup: seq<Check>) {
    rollup != [] && forall c <- rollup :: Judge(c) == Passing
  }

  lemma AggregatedIsPessimistic(rollup: seq<Check>)
    ensures Aggregated(rollup) == CiPassing <==> AllPass(rollup)
  {
    if HasSome(rollup, Failing) || HasSome(rollup, Pending) {
      var c :| c in rollup && Judge(c) != Passing;
    }
  }

  method AggregateCiState(rollup: seq<Check>) returns (state: Ci, names: seq<string>)
    ensures state == Aggregated(rollup)
    ensures names == FailingNames(rollup)
  {
    if rollup == [] {
      return CiNone, [];
    }
    names := [];
    var pending, passing := false, false;
    for i := 0 to |rollup|
      invariant names == FailingNames(rollup[..i])
      invariant names != [] <==> HasSome(rollup[..i], Failing)
      invariant pending <==> HasSome(rollup[..i], Pending)
      invariant passing <==> HasSome(rollup[..i], Passing)
    {
      assert rollup[..i + 1][..i] == rollup[..i];
      OneMore(rollup, i);
      var verdict := Judge(rollup[i]);
      if verdict == Failing {
        names := names + [NameOf(rollup[i])];
      } else if verdict == Pending {
        pending := true;
      } else {
        passing := true;
      }
    }
    assert rollup[..|rollup|] == rollup;
    SomethingIsSaid(rollup);
    if names != [] {
      state := CiFailing;
    } else if pending {
      state := CiPending;
    } else {
      state := if passing then CiPassing else CiNone;
    }
  }

  lemma OneMore(rollup: seq<Check>, i: nat)
    requires i < |rollup|
    ensures forall v :: HasSome(rollup[..i + 1], v) <==> HasSome(rollup[..i], v) || Judge(rollup[i]) == v
  {
    var before, after := rollup[..i], rollup[..i + 1];
    assert after == before + [rollup[i]];
    assert forall c :: c in after <==> c in before || c == rollup[i];
    forall v
      ensures HasSome(after, v) <==> HasSome(before, v) || Judge(rollup[i]) == v
    {
      if HasSome(before, v) {
        var c :| c in before && Judge(c) == v;
        assert c in after;
      }
      if Judge(rollup[i]) == v {
        assert rollup[i] in after;
      }
    }
  }

  lemma SomethingIsSaid(rollup: seq<Check>)
    requires rollup != []
    ensures HasSome(rollup, Failing) || HasSome(rollup, Pending) || HasSome(rollup, Passing)
  {
    assert rollup[0] in rollup;
    assert HasSome(rollup, Judge(rollup[0]));
  }

  /** `text` is `word`, a text of capitals, up to the case of its letters. */
  ghost predicate Spells(text: string, word: string) {
    && |text| == |word|
    && forall i :: 0 <= i < |text| ==> text[i] == word[i] || ('A' <= word[i] <= 'Z' && text[i] == word[i] + ' ')
  }

  ghost predicate Says(m: Member, word: string) {
    m.Given? && Spells(m.text, word)
  }

  lemma UpperedWhenSaid(m: Member, word: string)
    requires word != "" && forall i :: 0 <= i < |word| ==> !('a' <= word[i] <= 'z')
    ensures Uppered(m) == word <==> Says(m, word)
  {
    if Uppered(m) == word {
      forall i | 0 <= i < |word|
        ensures m.text[i] == word[i] || ('A' <= word[i] <= 'Z' && m.text[i] == word[i] + ' ')
      {
        assert Uppered(m)[i] == Upper(m.text[i]);
      }
    }
    if Says(m, word) {
      forall i | 0 <= i < |word|
        ensures Uppered(m)[i] == word[i]
      {}
    }
  }

  /** A run with no status, an empty one or a completed one is over. */
  ghost predicate IsOver(c: Check) {
    !c.status.Given? || c.status.text == "" || Says(c.status, "COMPLETED")
  }

  /**
   * Known good outcomes pass and known bad ones fail, in any case of letters; whatever else
   * is said, or nothing, is pending. A check with a conclusion or a status is a run, and says
   * nothing until it is over.
   */
  lemma JudgedByKnownOutcomes(c: Check)
    ensures Judge(c) == Passing <==>
              if c.conclusion == Absent && c.status == Absent then Says(c.state, "SUCCESS")
              else
                && IsOver(c)
                && (Says(c.conclusion, "SUCCESS") || Says(c.conclusion, "NEUTRAL") || Says(c.conclusion, "SKIPPED"))
    ensures Judge(c) == Failing <==>
              if c.conclusion == Absent && c.status == Absent then Says(c.state, "FAILURE") || Says(c.state, "ERROR")
              else
                && IsOver(c)
                && (Says(c.conclusion, "FAILURE") || Says(c.conclusion, "TIMED_OUT") || Says(c.conclusion, "CANCELLED")
                    || Says(c.conclusion, "ACTION_REQUIRED") || Says(c.conclusion, "STARTUP_FAILURE"))
  {
    UpperedWhenSaid(c.status, "COMPLETED");
    if c.conclusion == Absent && c.status == Absent {
      UpperedWhenSaid(c.state, "SUCCESS");
      UpperedWhenSaid(c.state, "FAILURE");
      UpperedWhenSaid(c.state, "ERROR");
    } else {
      GoodConclusions(c.conclusion);
      BadConclusions(c.conclusion);
      assert forall good <- PASSING_CONCLUSIONS :: good !in FAILING_CONCLUSIONS;
    }
  }

  lemma GoodConclusions(m: Member)
    ensures Uppered(m) in PASSING_CONCLUSIONS <==> Says(m, "SUCCESS") || Says(m, "NEUTRAL") || Says(m, "SKIPPED")
  {
    UpperedWhenSaid(m, "SUCCESS");
    UpperedWhenSaid(m, "NEUTRAL");
    UpperedWhenSaid(m, "SKIPPED");
  }

  lemma BadConclusions(m: Member)
    ensures Uppered(m) in FAILING_CONCLUSIONS <==>
              || Says(m, "FAILURE") || Says(m, "TIMED_OUT") || Says(m, "CANCELLED")
              || Says(m, "ACTION_REQUIRED") || Says(m, "STARTUP_FAILURE")
  {
    UpperedWhenSaid(m, "FAILURE");
    UpperedWhenSaid(m, "TIMED_OUT");
    UpperedWhenSaid(m, "CANCELLED");
    UpperedWhenSaid(m, "ACTION_REQUIRED");
    UpperedWhenSaid(m, "STARTUP_FAILURE");
  }

  /** The check goes by its name, or by its context when it has none, or is called unnamed. */
  ghost predicate GoesBy(c: Check, name: string) {
    || (c.name == Given(name) && name != "")
    || (c.name in {Absent, Null, Given("")} && c.context == Given(name) && name != "")
    || (c.name in {Absent, Null, Given("")} && c.context in {Absent, Null, Given("")} && name == "unnamed check")
  }

  /** The names reported are exactly those that the failing checks go by. */
  lemma {:induction false} FailingChecksAreNamed(rollup: seq<Check>, name: string)
    ensures name in FailingNames(rollup) <==> exists c <- rollup :: Judge(c) == Failing && GoesBy(c, name)
  {
    if rollup != [] {
      var init, last := rollup[..|rollup| - 1], rollup[|rollup| - 1];
      assert rollup == init + [last];
      FailingChecksAreNamed(init, name);
      assert GoesBy(last, name) <==> name == NameOf(last);
      assert last in rollup;
    }
  }
}

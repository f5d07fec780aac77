/**
 * The credit ledger of the quadratic-voting widget: a budget of credits and
 * an ordered list of questions, where holding vote `v` on a question costs
 * `v * v` credits. Votes are admitted or silently declined, every question's
 * up/down flags are recomputed after a committed vote, and a committed vote
 * that changes the target's absolute level announces a launch of credit
 * units between the pool and that question's diamond.
 */
module Ledger {
  import opened Wrappers
  import opened Arith
  import opened Bus

  const MinCredits: int := 4
  const MaxCredits: int := 225

  /** A question; `extras` stands for the caller's other fields, kept untouched. */
  datatype Question = Question(
    id: int,
    vote: int,
    isDisabledUp: bool,
    isDisabledDown: bool,
    extras: map<string, string>)

  /** The credit cost of holding vote `v`: `Math.abs(v) ** 2`. */
  function Square(v: int): nat {
    v * v
  }

  /** Range check on the budget, with the widget's two error messages. */
  function CheckCredits(credits: int): (r: Outcome<string>)
    ensures r == Pass <==> MinCredits <= credits <= MaxCredits
    ensures credits < MinCredits ==> r == Fail("Credits must be greater than 4")
    ensures credits > MaxCredits ==> r == Fail("Credits must be less than 226")
  {
    if credits < 4 then Fail("Credits must be greater than 4")
    else if credits > 225 then Fail("Credits must be less than 226")
    else Pass
  }

  // ---------------------------------------------------------------------------
  // Sums over the question list
  // ---------------------------------------------------------------------------

  /** Credits in use: the sum of `vote ** 2` over all questions. */
  function UsedCredits(qs: seq<Question>): nat {
    if |qs| == 0 then 0 else UsedCredits(qs[..|qs| - 1]) + Square(qs[|qs| - 1].vote)
  }

  /** One question's share of a simulated total. */
  function CostTerm(q: Question, id: int, potentialVote: int): nat {
    if q.id == id then Square(potentialVote) else Square(q.vote)
  }

  /** The total cost if every question with this `id` held `potentialVote`. */
  function SimulatedCost(qs: seq<Question>, id: int, potentialVote: int): nat {
    if |qs| == 0 then 0
    else SimulatedCost(qs[..|qs| - 1], id, potentialVote) + CostTerm(qs[|qs| - 1], id, potentialVote)
  }

  /** The cost of the questions whose id is not `id`. */
  function OthersCost(qs: seq<Question>, id: int): nat {
    if |qs| == 0 then 0
    else OthersCost(qs[..|qs| - 1], id) + (if qs[|qs| - 1].id == id then 0 else Square(qs[|qs| - 1].vote))
  }

  /** The cost of the questions whose id is `id`. */
  function TargetCost(qs: seq<Question>, id: int): nat {
    if |qs| == 0 then 0
    else TargetCost(qs[..|qs| - 1], id) + (if qs[|qs| - 1].id == id then Square(qs[|qs| - 1].vote) else 0)
  }

  /** How many questions carry this id. */
  function Occurrences(qs: seq<Question>, id: int): nat {
    if |qs| == 0 then 0
    else Occurrences(qs[..|qs| - 1], id) + (if qs[|qs| - 1].id == id then 1 else 0)
  }

  predicate UniqueIds(qs: seq<Question>) {
    forall i, j :: 0 <= i < j < |qs| ==> qs[i].id != qs[j].id
  }

  predicate HasId(qs: seq<Question>, id: int) {
    exists k :: 0 <= k < |qs| && qs[k].id == id
  }

  /** `questions.find(q => q.id === id)`: the first question with this id. */
  function Find(qs: seq<Question>, id: int): (r: Option<Question>)
    ensures r.None? <==> !HasId(qs, id)
    ensures r.Some? ==> r.value in qs && r.value.id == id
  {
    if |qs| == 0 then None
    else if qs[0].id == id then Some(qs[0])
    else
      assert HasId(qs, id) ==> HasId(qs[1..], id) by {
        if HasId(qs, id) {
          var k :| 0 <= k < |qs| && qs[k].id == id;
          assert qs[1..][k - 1].id == id;
        }
      }
      Find(qs[1..], id)
  }

  /** `prevQuestion?.vote ?? 0`. */
  function VoteOf(qs: seq<Question>, id: int): int {
    match Find(qs, id)
    case Some(q) => q.vote
    case None => 0
  }

  // ---------------------------------------------------------------------------
  // The list transformations of a vote and of a reset
  // ---------------------------------------------------------------------------

  /** Admission as written in the provider: the step amount stands in for the target's vote. */
  predicate Admits(qs: seq<Question>, id: int, voteAmount: int, credits: int) {
    SimulatedCost(qs, id, voteAmount) <= credits
  }

  /**
   * The corrected admission: the target's vote after the step is simulated,
   * as the flag refresh simulates `q.vote + 1` and `q.vote - 1`.
   */
  predicate AdmitsIntended(qs: seq<Question>, id: int, voteAmount: int, credits: int) {
    SimulatedCost(qs, id, VoteOf(qs, id) + voteAmount) <= credits
  }

  /** Adds `voteAmount` to the vote of the questions with this id; the rest is kept. */
  function Commit(qs: seq<Question>, id: int, voteAmount: int): (r: seq<Question>)
    ensures |r| == |qs|
  {
    seq(|qs|, k requires 0 <= k < |qs| =>
      if qs[k].id == id then qs[k].(vote := qs[k].vote + voteAmount) else qs[k])
  }

  /** Recomputes every question's flags: a step that the budget would decline is disabled. */
  function Refresh(qs: seq<Question>, credits: int): (r: seq<Question>)
    ensures |r| == |qs|
  {
    seq(|qs|, k requires 0 <= k < |qs| => WithFlags(qs, credits, qs[k]))
  }

  /** One question of `qs` with its flags from two simulated totals over `qs`. */
  function WithFlags(qs: seq<Question>, credits: int, q: Question): Question {
    q.(isDisabledUp := SimulatedCost(qs, q.id, q.vote + 1) > credits,
       isDisabledDown := SimulatedCost(qs, q.id, q.vote - 1) > credits)
  }

  /** The launch that a committed vote announces, from the before/after totals and levels. */
  function LaunchFor(id: int, prevUsed: int, nextUsed: int, prevAbs: int, nextAbs: int): Option<LaunchPayload> {
    var delta := nextUsed - prevUsed;
    if delta > 0 && nextAbs > prevAbs then
      Some(LaunchPayload(ToDiamond, prevUsed, id, nextAbs, delta, None))
    else if delta < 0 && nextAbs < prevAbs then
      Some(LaunchPayload(ToPool, nextUsed, id, prevAbs, -delta, None))
    else None
  }

  /** The list a reset produces: every vote 0, both flags cleared. */
  function ResetAll(qs: seq<Question>): (r: seq<Question>)
    ensures |r| == |qs|
  {
    seq(|qs|, k requires 0 <= k < |qs| => qs[k].(vote := 0, isDisabledUp := false, isDisabledDown := false))
  }

  // ---------------------------------------------------------------------------
  // The ledger object
  // ---------------------------------------------------------------------------

  /** The provider's state: the fixed budget and the stored question list. */
  class QuadraticVoteProvider {
    const credits: int
    var questions: seq<Question>

    constructor (credits: int, questions: seq<Question>)
      ensures this.credits == credits && this.questions == questions
      ensures AvailableCredits() == credits - UsedCredits(questions)
    {
      this.credits := credits;
      this.questions := questions;
    }

    /**
     * The provider as mounted: refused, with the range check's message,
     * exactly when the budget is outside `[4, 225]`; otherwise a fresh ledger.
     */
    static method Create(credits: int, questions: seq<Question>) returns (r: Outcome<string>, p: QuadraticVoteProvider?)
      ensures r == CheckCredits(credits)
      ensures p != null <==> MinCredits <= credits <= MaxCredits
      ensures p != null ==> fresh(p) && p.credits == credits && p.questions == questions
    {
      r := CheckCredits(credits);
      if r == Pass {
        p := new QuadraticVoteProvider(credits, questions);
      } else {
        p := null;
      }
    }

    /** `availableCredits`, derived from the stored list. */
    function AvailableCredits(): int
      reads this
    {
      credits - UsedCredits(questions)
    }

    /** The budget invariant: the spent credits fit in the budget. */
    predicate WithinBudget()
      reads this
    {
      UsedCredits(questions) <= credits
    }

    /** `canVote`: the simulated total, accumulated question by question, against the budget. */
    method CanVote(qs: seq<Question>, id: int, potentialVote: int) returns (ok: bool)
      ensures ok <==> OthersCost(qs, id) + Occurrences(qs, id) * Square(potentialVote) <= credits
    {
      var simulatedCost := 0;
      var i := 0;
      while i < |qs|
        invariant 0 <= i <= |qs|
        invariant simulatedCost == SimulatedCost(qs[..i], id, potentialVote)
      {
        assert qs[..i + 1][..i] == qs[..i];
        if qs[i].id == id {
          simulatedCost := simulatedCost + Abs(potentialVote) * Abs(potentialVote);
        } else {
          simulatedCost := simulatedCost + Abs(qs[i].vote) * Abs(qs[i].vote);
        }
        i := i + 1;
      }
      assert qs[..i] == qs;
      SimulatedCostSplit(qs, id, potentialVote);
      ok := simulatedCost <= credits;
    }

    /** The second `map` of `vote`: each question's flags from two `canVote` calls. */
    method RefreshFlags(updated: seq<Question>) returns (next: seq<Question>)
      ensures next == Refresh(updated, credits)
    {
      next := [];
      var k := 0;
      while k < |updated|
        invariant 0 <= k <= |updated|
        invariant next == Refresh(updated, credits)[..k]
      {
        var q := updated[k];
        var up := CanVote(updated, q.id, q.vote + 1);
        var down := CanVote(updated, q.id, q.vote - 1);
        SimulatedCostSplit(updated, q.id, q.vote + 1);
        SimulatedCostSplit(updated, q.id, q.vote - 1);
        next := next + [q.(isDisabledUp := !up, isDisabledDown := !down)];
        k := k + 1;
      }
    }

    /**
     * `vote(id, voteAmount)`, as written: declined silently unless the total
     * with the step amount in place of the target's vote fits the budget;
     * otherwise the target's vote grows by `voteAmount`, all flags are
     * recomputed and the launch (if any) is returned.
     */
    method Vote(id: int, voteAmount: int) returns (launch: Option<LaunchPayload>)
      modifies this
      ensures !Admits(old(questions), id, voteAmount, credits) ==>
                questions == old(questions) && launch == None
      ensures Admits(old(questions), id, voteAmount, credits) ==>
                && questions == Refresh(Commit(old(questions), id, voteAmount), credits)
                && launch == LaunchFor(id, UsedCredits(old(questions)), UsedCredits(questions),
                                       Abs(VoteOf(old(questions), id)), Abs(VoteOf(questions, id)))
    {
      var ok := CanVote(questions, id, voteAmount);
      SimulatedCostSplit(questions, id, voteAmount);
      if ok {
        launch := Apply(id, voteAmount);
      } else {
        launch := None;
      }
    }

    /**
     * The corrected `vote`: the target's vote after the step is what gets
     * simulated, so a committed vote never overspends the budget.
     */
    method VoteIntended(id: int, voteAmount: int) returns (launch: Option<LaunchPayload>)
      modifies this
      ensures !AdmitsIntended(old(questions), id, voteAmount, credits) ==>
                questions == old(questions) && launch == None
      ensures AdmitsIntended(old(questions), id, voteAmount, credits) ==>
                && questions == Refresh(Commit(old(questions), id, voteAmount), credits)
                && launch == LaunchFor(id, UsedCredits(old(questions)), UsedCredits(questions),
                                       Abs(VoteOf(old(questions), id)), Abs(VoteOf(questions, id)))
      ensures UniqueIds(old(questions)) && old(WithinBudget()) ==> WithinBudget()
    {
      var target := VoteOf(questions, id);
      var ok := CanVote(questions, id, target + voteAmount);
      SimulatedCostSplit(questions, id, target + voteAmount);
      assert ok <==> AdmitsIntended(questions, id, voteAmount, credits);
      if ok {
        if UniqueIds(questions) {
          IntendedAdmissionMeansWithinBudget(questions, id, voteAmount, credits);
        }
        launch := Apply(id, voteAmount);
        if UniqueIds(old(questions)) {
          SameVotesSameCost(questions, Commit(old(questions), id, voteAmount));
        }
      } else {
        launch := None;
      }
    }

    /** The committed branch shared by both admission rules. */
    method Apply(id: int, voteAmount: int) returns (launch: Option<LaunchPayload>)
      modifies this
      ensures questions == Refresh(Commit(old(questions), id, voteAmount), credits)
      ensures launch == LaunchFor(id, UsedCredits(old(questions)), UsedCredits(questions),
                                  Abs(VoteOf(old(questions), id)), Abs(VoteOf(questions, id)))
    {
      var prevAbs := Abs(VoteOf(questions, id));
      var updated := Commit(questions, id, voteAmount);
      var next := RefreshFlags(updated);
      var prevUsed := UsedCredits(questions);
      var nextUsed := UsedCredits(next);
      questions := next;
      var nextAbs := Abs(VoteOf(next, id));
      launch := LaunchFor(id, prevUsed, nextUsed, prevAbs, nextAbs);
    }

    /** `reset()`: every vote back to 0 and both flags cleared, order and other fields kept. */
    method Reset()
      modifies this
      ensures questions == ResetAll(old(questions))
      ensures AvailableCredits() == credits
    {
      questions := ResetAll(questions);
      ResetClearsEverything(old(questions));
    }
  }

  // ---------------------------------------------------------------------------
  // Lemmas about the sums
  // ---------------------------------------------------------------------------

  /** The simulated total is the others' cost plus the hypothetical vote's cost per match. */
  lemma {:induction false} SimulatedCostSplit(qs: seq<Question>, id: int, potentialVote: int)
    ensures SimulatedCost(qs, id, potentialVote)
            == OthersCost(qs, id) + Occurrences(qs, id) * Square(potentialVote)
  {
    if |qs| > 0 {
      SimulatedCostSplit(qs[..|qs| - 1], id, potentialVote);
    }
  }

  /** The used credits are the others' cost plus the target's own cost. */
  lemma {:induction false} UsedCreditsSplit(qs: seq<Question>, id: int)
    ensures UsedCredits(qs) == OthersCost(qs, id) + TargetCost(qs, id)
  {
    if |qs| > 0 {
      UsedCreditsSplit(qs[..|qs| - 1], id);
    }
  }

  /** Without the id, nothing is attributed to it. */
  lemma {:induction false} AbsentTarget(qs: seq<Question>, id: int)
    requires !HasId(qs, id)
    ensures Occurrences(qs, id) == 0 && TargetCost(qs, id) == 0
    ensures OthersCost(qs, id) == UsedCredits(qs)
  {
    if |qs| > 0 {
      var p := qs[..|qs| - 1];
      assert !HasId(p, id) by {
        forall j | 0 <= j < |p| ensures p[j].id != id { assert p[j] == qs[j]; }
      }
      AbsentTarget(p, id);
      assert qs[|qs| - 1].id != id;
    }
    UsedCreditsSplit(qs, id);
  }

  /** With unique ids, the target appears once and its cost is its own vote squared. */
  lemma {:induction false} UniqueTarget(qs: seq<Question>, k: nat)
    requires UniqueIds(qs) && k < |qs|
    ensures Occurrences(qs, qs[k].id) == 1
    ensures TargetCost(qs, qs[k].id) == Square(qs[k].vote)
  {
    var id := qs[k].id;
    var p := qs[..|qs| - 1];
    assert UniqueIds(p);
    if k == |qs| - 1 {
      assert !HasId(p, id) by {
        forall j | 0 <= j < |p| ensures p[j].id != id { assert p[j] == qs[j]; }
      }
      AbsentTarget(p, id);
    } else {
      assert p[k] == qs[k];
      UniqueTarget(p, k);
    }
  }

  /** With unique ids, `find` returns the question at the matching index. */
  lemma {:induction false} FindUnique(qs: seq<Question>, k: nat)
    requires UniqueIds(qs) && k < |qs|
    ensures Find(qs, qs[k].id) == Some(qs[k])
    ensures VoteOf(qs, qs[k].id) == qs[k].vote
  {
    if k > 0 {
      assert qs[0].id != qs[k].id;
      assert qs[1..][k - 1] == qs[k];
      FindUnique(qs[1..], k - 1);
    }
  }

  /** Two lists with the same votes cost the same. */
  lemma {:induction false} SameVotesSameCost(a: seq<Question>, b: seq<Question>)
    requires |a| == |b|
    requires forall k :: 0 <= k < |a| ==> a[k].vote == b[k].vote
    ensures UsedCredits(a) == UsedCredits(b)
  {
    if |a| > 0 {
      SameVotesSameCost(a[..|a| - 1], b[..|b| - 1]);
    }
  }

  /** Two lists that agree on ids and on the votes of non-targets have the same `OthersCost`. */
  lemma {:induction false} SameOthersCost(a: seq<Question>, b: seq<Question>, id: int)
    requires |a| == |b|
    requires forall k :: 0 <= k < |a| ==> a[k].id == b[k].id
    requires forall k :: 0 <= k < |a| && a[k].id != id ==> a[k].vote == b[k].vote
    ensures OthersCost(a, id) == OthersCost(b, id)
  {
    if |a| > 0 {
      SameOthersCost(a[..|a| - 1], b[..|b| - 1], id);
    }
  }

  /** Every question holding the same vote `v`: the cost is `|qs| * v * v`. */
  lemma {:induction false} UniformVotesCost(qs: seq<Question>, v: int)
    requires forall k :: 0 <= k < |qs| ==> qs[k].vote == v
    ensures UsedCredits(qs) == |qs| * Square(v)
  {
    if |qs| > 0 {
      UniformVotesCost(qs[..|qs| - 1], v);
    }
  }

  /** Six questions voted 2 under a budget of 100 leave 76 credits available. */
  lemma SixQuestionsAtTwo(qs: seq<Question>)
    requires |qs| == 6 && forall k :: 0 <= k < |qs| ==> qs[k].vote == 2
    ensures 100 - UsedCredits(qs) == 76
  {
    UniformVotesCost(qs, 2);
  }

  // ---------------------------------------------------------------------------
  // Admission
  // ---------------------------------------------------------------------------

  /** As written, with unique ids: admitted iff the others' cost plus the step amount squared fits. */
  lemma AdmissionRule(qs: seq<Question>, id: int, voteAmount: int, credits: int)
    requires UniqueIds(qs)
    ensures HasId(qs, id) ==>
              (Admits(qs, id, voteAmount, credits) <==> OthersCost(qs, id) + Square(voteAmount) <= credits)
    ensures !HasId(qs, id) ==> (Admits(qs, id, voteAmount, credits) <==> UsedCredits(qs) <= credits)
  {
    SimulatedCostSplit(qs, id, voteAmount);
    if HasId(qs, id) {
      var k :| 0 <= k < |qs| && qs[k].id == id;
      UniqueTarget(qs, k);
    } else {
      AbsentTarget(qs, id);
    }
  }

  /** Committing moves the total by the change of the target's own cost. */
  lemma CommitCost(qs: seq<Question>, k: nat, voteAmount: int)
    requires UniqueIds(qs) && k < |qs|
    ensures UniqueIds(Commit(qs, qs[k].id, voteAmount))
    ensures Commit(qs, qs[k].id, voteAmount)[k].vote == qs[k].vote + voteAmount
    ensures UsedCredits(Commit(qs, qs[k].id, voteAmount))
            == OthersCost(qs, qs[k].id) + Square(qs[k].vote + voteAmount)
    ensures UsedCredits(qs) == OthersCost(qs, qs[k].id) + Square(qs[k].vote)
  {
    var id := qs[k].id;
    var c := Commit(qs, id, voteAmount);
    assert forall j :: 0 <= j < |c| ==> c[j].id == qs[j].id;
    SameOthersCost(qs, c, id);
    UsedCreditsSplit(c, id);
    UsedCreditsSplit(qs, id);
    UniqueTarget(c, k);
    UniqueTarget(qs, k);
  }

  /** When the target's vote was 0, an admitted vote keeps the total within budget. */
  lemma ZeroTargetStaysWithinBudget(qs: seq<Question>, k: nat, voteAmount: int, credits: int)
    requires UniqueIds(qs) && k < |qs| && qs[k].vote == 0
    requires Admits(qs, qs[k].id, voteAmount, credits)
    ensures UsedCredits(Refresh(Commit(qs, qs[k].id, voteAmount), credits)) <= credits
  {
    var c := Commit(qs, qs[k].id, voteAmount);
    AdmissionRule(qs, qs[k].id, voteAmount, credits);
    CommitCost(qs, k, voteAmount);
    SameVotesSameCost(Refresh(c, credits), c);
  }

  /**
   * As written, a ±1 step that the refreshed flags leave enabled is admitted
   * and keeps a ledger within budget as it was: the flags guard the step the
   * admission does not.
   */
  lemma FlagRespectingStepStaysWithinBudget(p: seq<Question>, credits: int, k: nat, step: int)
    requires UniqueIds(p) && k < |p| && (step == 1 || step == -1) && UsedCredits(p) <= credits
    requires step == 1 ==> !Refresh(p, credits)[k].isDisabledUp
    requires step == -1 ==> !Refresh(p, credits)[k].isDisabledDown
    ensures var qs := Refresh(p, credits);
            && Admits(qs, qs[k].id, step, credits)
            && UsedCredits(Refresh(Commit(qs, qs[k].id, step), credits)) <= credits
  {
    var qs := Refresh(p, credits);
    var id, v := p[k].id, p[k].vote;
    var others := OthersCost(p, id);
    assert qs[k].id == id && qs[k].vote == v && UniqueIds(qs) && OthersCost(qs, id) == others by {
      RefreshKeeps(p, credits);
      SameOthersCost(p, qs, id);
    }
    assert others + Square(v) <= credits by {
      UsedCreditsSplit(p, id);
      UniqueTarget(p, k);
    }
    assert others + Square(v + step) <= credits by {
      FlagsMeaning(p, credits, k);
    }
    EnabledStepFits(others, v, step, credits);
    assert Admits(qs, id, step, credits) by {
      assert HasId(qs, id);
      AdmissionRule(qs, id, step, credits);
    }
    CommitFits(qs, k, id, v, step, credits);
  }

  /** A commit on a present id fits the budget when the others' cost plus the new square does. */
  lemma CommitFits(qs: seq<Question>, k: nat, id: int, v: int, voteAmount: int, credits: int)
    requires UniqueIds(qs) && k < |qs| && qs[k].id == id && qs[k].vote == v
    requires OthersCost(qs, id) + Square(v + voteAmount) <= credits
    ensures UsedCredits(Refresh(Commit(qs, id, voteAmount), credits)) <= credits
  {
    var c := Commit(qs, id, voteAmount);
    CommitCost(qs, k, voteAmount);
    SameVotesSameCost(Refresh(c, credits), c);
  }

  /** The arithmetic of `FlagRespectingStepStaysWithinBudget`: a unit step costs at most what the enabled flag allows. */
  lemma EnabledStepFits(others: int, v: int, step: int, credits: int)
    requires step == 1 || step == -1
    requires others + Square(v) <= credits && others + Square(v + step) <= credits
    ensures others + Square(step) <= credits
  {
    if v != 0 {
      assert Square(v) >= 1;
    }
  }

  /**
   * The discrepancy of the admission as written: one question at vote 10
   * under a budget of 100 admits `+1` and leaves -21 credits available.
   */
  lemma AsWrittenOverspends(extras: map<string, string>)
    ensures var qs := [Question(0, 10, false, false, extras)];
            && Admits(qs, 0, 1, 100)
            && 100 - UsedCredits(Refresh(Commit(qs, 0, 1), 100)) == -21
  {
    var qs := [Question(0, 10, false, false, extras)];
    var c := Commit(qs, 0, 1);
    assert c == [Question(0, 11, false, false, extras)];
    SameVotesSameCost(Refresh(c, 100), c);
  }

  /** The corrected admission means exactly: the committed list fits the budget. */
  lemma IntendedAdmissionMeansWithinBudget(qs: seq<Question>, id: int, voteAmount: int, credits: int)
    requires UniqueIds(qs)
    ensures AdmitsIntended(qs, id, voteAmount, credits)
            <==> UsedCredits(Commit(qs, id, voteAmount)) <= credits
  {
    if HasId(qs, id) {
      var k :| 0 <= k < |qs| && qs[k].id == id;
      FindUnique(qs, k);
      CommitCost(qs, k, voteAmount);
      SimulatedCostSplit(qs, id, qs[k].vote + voteAmount);
      UniqueTarget(qs, k);
    } else {
      AbsentTarget(qs, id);
      SimulatedCostSplit(qs, id, voteAmount);
      assert Commit(qs, id, voteAmount) == qs;
    }
  }

  // ---------------------------------------------------------------------------
  // The state after a committed vote
  // ---------------------------------------------------------------------------

  /** Refreshing flags keeps ids, votes and extras, and so the total. */
  lemma RefreshKeeps(qs: seq<Question>, credits: int)
    ensures forall k :: 0 <= k < |qs| ==>
              var r := Refresh(qs, credits)[k];
              r.id == qs[k].id && r.vote == qs[k].vote && r.extras == qs[k].extras
    ensures UsedCredits(Refresh(qs, credits)) == UsedCredits(qs)
    ensures UniqueIds(qs) ==> UniqueIds(Refresh(qs, credits))
  {
    SameVotesSameCost(Refresh(qs, credits), qs);
  }

  /**
   * The flags after a refresh, with unique ids: up is disabled iff the
   * others' cost plus `(v + 1) ** 2` exceeds the budget; down likewise with `v - 1`.
   */
  lemma FlagsMeaning(qs: seq<Question>, credits: int, k: nat)
    requires UniqueIds(qs) && k < |qs|
    ensures Refresh(qs, credits)[k].isDisabledUp
            <==> OthersCost(qs, qs[k].id) + Square(qs[k].vote + 1) > credits
    ensures Refresh(qs, credits)[k].isDisabledDown
            <==> OthersCost(qs, qs[k].id) + Square(qs[k].vote - 1) > credits
  {
    var q := qs[k];
    assert Refresh(qs, credits)[k] == WithFlags(qs, credits, q);
    UniqueTarget(qs, k);
    SimulatedCostSplit(qs, q.id, q.vote + 1);
    SimulatedCostSplit(qs, q.id, q.vote - 1);
    assert Occurrences(qs, q.id) * Square(q.vote + 1) == Square(q.vote + 1);
    assert Occurrences(qs, q.id) * Square(q.vote - 1) == Square(q.vote - 1);
  }

  /**
   * With no credit left, a question's up step is disabled iff its vote is
   * at least 0 and its down step iff its vote is at most 0; a zero vote has both.
   */
  lemma FlagsAtZeroBudget(qs: seq<Question>, credits: int, k: nat)
    requires UniqueIds(qs) && k < |qs| && UsedCredits(qs) == credits
    ensures Refresh(qs, credits)[k].isDisabledUp <==> qs[k].vote >= 0
    ensures Refresh(qs, credits)[k].isDisabledDown <==> qs[k].vote <= 0
  {
    FlagsMeaning(qs, credits, k);
    UsedCreditsSplit(qs, qs[k].id);
    UniqueTarget(qs, k);
    var v := qs[k].vote;
    assert Square(v + 1) == Square(v) + 2 * v + 1;
    assert Square(v - 1) == Square(v) - 2 * v + 1;
  }

  /**
   * A committed vote on a present id changes only the target's vote, by
   * exactly the step amount; ids, extras and order stay, and the new total is
   * the old one with the target's cost replaced.
   */
  lemma VoteOutcome(qs: seq<Question>, credits: int, k: nat, voteAmount: int)
    requires UniqueIds(qs) && k < |qs|
    ensures var next := Refresh(Commit(qs, qs[k].id, voteAmount), credits);
            && |next| == |qs|
            && (forall j :: 0 <= j < |qs| ==> next[j].id == qs[j].id && next[j].extras == qs[j].extras)
            && next[k].vote == qs[k].vote + voteAmount
            && (forall j :: 0 <= j < |qs| && j != k ==> next[j].vote == qs[j].vote)
            && UsedCredits(next) == UsedCredits(qs) - Square(qs[k].vote) + Square(qs[k].vote + voteAmount)
            && VoteOf(next, qs[k].id) == qs[k].vote + voteAmount
  {
    var id := qs[k].id;
    var c := Commit(qs, id, voteAmount);
    var next := Refresh(c, credits);
    CommitCost(qs, k, voteAmount);
    RefreshKeeps(c, credits);
    FindUnique(next, k);
  }

  /** The totals and the target's vote after a committed vote on a present id. */
  lemma VoteTotals(qs: seq<Question>, credits: int, k: nat, voteAmount: int, next: seq<Question>)
    requires UniqueIds(qs) && k < |qs|
    requires next == Refresh(Commit(qs, qs[k].id, voteAmount), credits)
    ensures UsedCredits(next) == UsedCredits(qs) - Square(qs[k].vote) + Square(qs[k].vote + voteAmount)
    ensures VoteOf(next, qs[k].id) == qs[k].vote + voteAmount
    ensures VoteOf(qs, qs[k].id) == qs[k].vote
  {
    VoteOutcome(qs, credits, k, voteAmount);
    FindUnique(qs, k);
  }

  /** A vote on a missing id leaves every vote as it was and announces nothing. */
  lemma VoteOnMissingId(qs: seq<Question>, credits: int, id: int, voteAmount: int)
    requires !HasId(qs, id)
    ensures var next := Refresh(Commit(qs, id, voteAmount), credits);
            && (forall j :: 0 <= j < |qs| ==> next[j].vote == qs[j].vote)
            && LaunchFor(id, UsedCredits(qs), UsedCredits(next), Abs(VoteOf(qs, id)), Abs(VoteOf(next, id))) == None
  {
    var c := Commit(qs, id, voteAmount);
    assert c == qs;
    var next := Refresh(c, credits);
    RefreshKeeps(c, credits);
    assert !HasId(next, id) by {
      forall j | 0 <= j < |next| ensures next[j].id != id { assert next[j].id == qs[j].id; }
    }
  }

  // ---------------------------------------------------------------------------
  // Launches
  // ---------------------------------------------------------------------------

  /**
   * How a launch follows the target's level: none iff the level stays;
   * toward the diamond, from the old total, at the new level, carrying the
   * cost increase; or toward the pool, to the new total, from the old level,
   * carrying the cost decrease.
   */
  predicate LaunchFollows(launch: Option<LaunchPayload>, id: int, prevUsed: int, nextUsed: int, prevAbs: nat, nextAbs: nat) {
    && (launch == None <==> prevAbs == nextAbs)
    && (nextAbs > prevAbs ==>
          launch == Some(LaunchPayload(ToDiamond, prevUsed, id, nextAbs, Square(nextAbs) - Square(prevAbs), None)))
    && (nextAbs < prevAbs ==>
          launch == Some(LaunchPayload(ToPool, nextUsed, id, prevAbs, Square(prevAbs) - Square(nextAbs), None)))
  }

  /** With unique ids, the launch of a committed vote on a present id follows its level change. */
  lemma LaunchFollowsLevel(qs: seq<Question>, credits: int, k: nat, voteAmount: int)
    requires UniqueIds(qs) && k < |qs|
    ensures var id := qs[k].id;
            var next := Refresh(Commit(qs, id, voteAmount), credits);
            var prevAbs := Abs(VoteOf(qs, id));
            var nextAbs := Abs(VoteOf(next, id));
            && prevAbs == Abs(qs[k].vote) && nextAbs == Abs(qs[k].vote + voteAmount)
            && LaunchFollows(LaunchFor(id, UsedCredits(qs), UsedCredits(next), prevAbs, nextAbs),
                             id, UsedCredits(qs), UsedCredits(next), prevAbs, nextAbs)
  {
    var id := qs[k].id;
    var next := Refresh(Commit(qs, id, voteAmount), credits);
    VoteTotals(qs, credits, k, voteAmount, next);
    LaunchOfStep(id, UsedCredits(qs), UsedCredits(next), VoteOf(qs, id), VoteOf(next, id));
  }

  /** `LaunchFor` for a vote moving from `prevVote` to `nextVote`, in integers only. */
  lemma LaunchOfStep(id: int, prevUsed: int, nextUsed: int, prevVote: int, nextVote: int)
    requires nextUsed == prevUsed - Square(prevVote) + Square(nextVote)
    ensures LaunchFollows(LaunchFor(id, prevUsed, nextUsed, Abs(prevVote), Abs(nextVote)),
                          id, prevUsed, nextUsed, Abs(prevVote), Abs(nextVote))
  {
    SquareAbs(prevVote);
    SquareAbs(nextVote);
    LaunchForLevels(id, prevUsed, nextUsed, Abs(prevVote), Abs(nextVote));
  }

  /** `LaunchFor` when the change of total is the change of the squared level. */
  lemma LaunchForLevels(id: int, prevUsed: int, nextUsed: int, prevAbs: nat, nextAbs: nat)
    requires nextUsed - prevUsed == Square(nextAbs) - Square(prevAbs)
    ensures LaunchFollows(LaunchFor(id, prevUsed, nextUsed, prevAbs, nextAbs), id, prevUsed, nextUsed, prevAbs, nextAbs)
  {
    if prevAbs < nextAbs {
      SquareMonotone(prevAbs, nextAbs);
    } else if nextAbs < prevAbs {
      SquareMonotone(nextAbs, prevAbs);
    }
  }

  lemma SquareAbs(v: int)
    ensures Square(Abs(v)) == Square(v)
  {
  }

  lemma SquareMonotone(a: nat, b: nat)
    requires a < b
    ensures Square(a) < Square(b)
  {
    assert Square(b) - Square(a) == (b - a) * (b + a);
  }

  /**
   * With unique ids, a committed step on a present id announces no launch
   * exactly when it keeps the spent credits; a sign flip from `v` to `-v` is one.
   */
  lemma SignFlipAnnouncesNothing(qs: seq<Question>, credits: int, k: nat, voteAmount: int)
    requires UniqueIds(qs) && k < |qs|
    ensures var id := qs[k].id;
            var next := Refresh(Commit(qs, id, voteAmount), credits);
            var launch := LaunchFor(id, UsedCredits(qs), UsedCredits(next), Abs(VoteOf(qs, id)), Abs(VoteOf(next, id)));
            && (launch == None <==> UsedCredits(next) == UsedCredits(qs))
            && (voteAmount == -2 * qs[k].vote ==> UsedCredits(next) == UsedCredits(qs))
  {
    var id := qs[k].id;
    var next := Refresh(Commit(qs, id, voteAmount), credits);
    var v := qs[k].vote;
    var prevUsed, nextUsed := UsedCredits(qs), UsedCredits(next);
    assert VoteOf(qs, id) == v && VoteOf(next, id) == v + voteAmount
           && nextUsed == prevUsed - Square(v) + Square(v + voteAmount) by {
      VoteTotals(qs, credits, k, voteAmount, next);
    }
    NoLaunchIffSameCost(id, prevUsed, nextUsed, v, voteAmount);
  }

  /** `SignFlipAnnouncesNothing` in integers only. */
  lemma NoLaunchIffSameCost(id: int, prevUsed: int, nextUsed: int, v: int, step: int)
    requires nextUsed == prevUsed - Square(v) + Square(v + step)
    ensures LaunchFor(id, prevUsed, nextUsed, Abs(v), Abs(v + step)) == None <==> nextUsed == prevUsed
    ensures step == -2 * v ==> nextUsed == prevUsed
  {
    LaunchOfStep(id, prevUsed, nextUsed, v, v + step);
    SquareAbs(v);
    SquareAbs(v + step);
    var a, b := Abs(v), Abs(v + step);
    if a < b {
      SquareMonotone(a, b);
    } else if b < a {
      SquareMonotone(b, a);
    }
  }

  /**
   * A single-step vote (`+1` or `-1`) that moves between levels `L - 1` and
   * `L` carries `2 * L - 1` units, and names level `L`.
   */
  lemma UnitStepCount(qs: seq<Question>, credits: int, k: nat, voteAmount: int)
    requires UniqueIds(qs) && k < |qs| && (voteAmount == 1 || voteAmount == -1)
    ensures var id := qs[k].id;
            var next := Refresh(Commit(qs, id, voteAmount), credits);
            UnitLaunch(LaunchFor(id, UsedCredits(qs), UsedCredits(next), Abs(VoteOf(qs, id)), Abs(VoteOf(next, id))))
  {
    var id := qs[k].id;
    var next := Refresh(Commit(qs, id, voteAmount), credits);
    VoteTotals(qs, credits, k, voteAmount, next);
    UnitStepLaunch(id, UsedCredits(qs), UsedCredits(next), qs[k].vote, voteAmount);
  }

  /** A launch, if any, carries one diamond level's circles: `2 * level - 1` of them. */
  predicate UnitLaunch(launch: Option<LaunchPayload>) {
    launch.Some? ==> launch.value.diamondLevel >= 1 && launch.value.count == 2 * launch.value.diamondLevel - 1
  }

  /** `UnitStepCount` in integers only. */
  lemma UnitStepLaunch(id: int, prevUsed: int, nextUsed: int, v: int, step: int)
    requires step == 1 || step == -1
    requires nextUsed == prevUsed - Square(v) + Square(v + step)
    ensures UnitLaunch(LaunchFor(id, prevUsed, nextUsed, Abs(v), Abs(v + step)))
  {
    LaunchOfStep(id, prevUsed, nextUsed, v, v + step);
    var a, b := Abs(v), Abs(v + step);
    assert a == b + 1 || b == a + 1 || a == b;
    if a == b + 1 {
      SquareSuccessor(b);
    } else if b == a + 1 {
      SquareSuccessor(a);
    }
  }

  /** Level `L + 1` of a diamond costs `2 * (L + 1) - 1` more than level `L`. */
  lemma SquareSuccessor(n: nat)
    ensures Square(n + 1) - Square(n) == 2 * (n + 1) - 1
  {
  }

  // ---------------------------------------------------------------------------
  // Reset
  // ---------------------------------------------------------------------------

  /** A reset zeroes votes and flags, keeps ids, extras and order, and frees every credit. */
  lemma ResetClearsEverything(qs: seq<Question>)
    ensures forall k :: 0 <= k < |qs| ==>
              var r := ResetAll(qs)[k];
              && r.vote == 0 && !r.isDisabledUp && !r.isDisabledDown
              && r.id == qs[k].id && r.extras == qs[k].extras
    ensures UsedCredits(ResetAll(qs)) == 0
  {
    UniformVotesCost(ResetAll(qs), 0);
  }

  /** Resetting twice is resetting once. */
  lemma ResetIdempotent(qs: seq<Question>)
    ensures ResetAll(ResetAll(qs)) == ResetAll(qs)
  {
  }
}

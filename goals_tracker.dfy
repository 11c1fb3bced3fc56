/** components/profile/GoalsTracker.tsx: the goal list, the add, suggested-add and remove handlers,
    and the backend update they go through. The backend call is an outcome parameter. */
module GoalsTracker {
  import opened Types
  import opened Lists
  import opened Strings

  /** The list handleAddGoal sends, if any: the trimmed input appended, when it is not blank and
      not already a goal. */
  function AddedGoals(goals: seq<string>, newGoal: string): (r: Option<seq<string>>)
    ensures r.Some? <==> Trim(newGoal) != "" && Trim(newGoal) !in goals
    ensures r.Some? ==> r.value == goals + [Trim(newGoal)]
  {
    var goal := Trim(newGoal);
    if goal != "" && goal !in goals then Some(goals + [goal]) else None
  }

  /** Adding a typed goal never creates a duplicate. */
  lemma AddedGoalsKeepNoDuplicates(goals: seq<string>, newGoal: string)
    requires NoDuplicates(goals)
    ensures AddedGoals(goals, newGoal).Some? ==> NoDuplicates(AddedGoals(goals, newGoal).value)
  {
    if AddedGoals(goals, newGoal).Some? {
      AppendKeepsNoDuplicates(goals, Trim(newGoal));
    }
  }

  /** The list handleAddSuggestedGoal sends: membership is tested with the goal as given, but the
      trimmed goal is appended. */
  function SuggestedGoals(goals: seq<string>, goal: string): (r: Option<seq<string>>)
    ensures r.Some? <==> Trim(goal) != "" && goal !in goals
    ensures r.Some? ==> r.value == goals + [Trim(goal)]
  {
    if Trim(goal) != "" && goal !in goals then Some(goals + [Trim(goal)]) else None
  }

  lemma TrimPaddedRun()
    ensures Trim(" Run") == "Run"
  {
    var run := "Run";
    assert run[0] == 'R' && !IsJsSpace(run[0]);
    assert run[|run| - 1] == 'n' && !IsJsSpace(run[|run| - 1]);
    assert TrimStart(run) == run;
    assert TrimEnd(run) == run;
    assert " Run"[0] == ' ' && " Run"[1..] == run;
    assert TrimStart(" Run") == run;
  }

  /** A space before an existing goal slips past the membership test and duplicates it. */
  lemma SuggestedGoalCanDuplicate()
    ensures SuggestedGoals(["Run"], " Run") == Some(["Run", "Run"])
    ensures !NoDuplicates(SuggestedGoals(["Run"], " Run").value)
  {
    TrimPaddedRun();
    assert |" Run"| != |"Run"|;
    assert " Run" !in ["Run"];
    var r := ["Run"] + [Trim(" Run")];
    assert r == ["Run", "Run"];
    assert r[0] == r[1];
  }

  /** `goals.filter((_, index) => index !== i)`, element by element. */
  function RemoveAt(goals: seq<string>, i: int): (r: seq<string>)
    ensures 0 <= i < |goals| ==> r == goals[..i] + goals[i + 1..]
    ensures !(0 <= i < |goals|) ==> r == goals
  {
    if goals == [] then []
    else
      var rest := RemoveAt(goals[1..], i - 1);
      if i == 0 then
        assert goals[..0] + goals[1..] == goals[1..];
        rest
      else
        assert 0 < i < |goals| ==> [goals[0]] + (goals[1..][..i - 1] + goals[1..][i..]) == goals[..i] + goals[i + 1..];
        [goals[0]] + rest
  }

  /** Removing keeps a list free of duplicates. */
  lemma RemoveAtKeepsNoDuplicates(goals: seq<string>, i: int)
    requires NoDuplicates(goals)
    ensures NoDuplicates(RemoveAt(goals, i))
  {
    if 0 <= i < |goals| {
      var r := RemoveAt(goals, i);
      forall a, b | 0 <= a < b < |r| ensures r[a] != r[b] {
        var a' := if a < i then a else a + 1;
        var b' := if b < i then b else b + 1;
        assert r[a] == goals[a'] && r[b] == goals[b'];
      }
    }
  }

  class GoalsTrackerState {
    const user: Option<User>
    var goals: seq<string>
    var newGoal: string
    var loading: bool

    constructor(user: Option<User>, initialGoals: seq<string>)
      ensures this.user == user && goals == initialGoals && newGoal == "" && !loading
    {
      this.user := user;
      goals := initialGoals;
      newGoal := "";
      loading := false;
    }

    /** updateGoalsInBackend: without a user nothing happens; otherwise the goals become the new
        list only when the backend accepts it, and loading ends false either way. */
    method UpdateGoalsInBackend(updatedGoals: seq<string>, backendOk: bool) returns (requested: bool)
      modifies this
      ensures requested <==> user.Some?
      ensures goals == (if requested && backendOk then updatedGoals else old(goals))
      ensures loading == (if requested then false else old(loading))
      ensures newGoal == old(newGoal)
    {
      requested := user.Some?;
      if !requested {
        return;
      }
      loading := true;
      if backendOk {
        goals := updatedGoals;
      }
      loading := false;
    }

    /** handleAddGoal: a non-blank new goal is sent and the input is cleared (whatever the
        backend does); otherwise nothing changes. A list without duplicates stays so. */
    method HandleAddGoal(backendOk: bool)
      modifies this
      ensures var sent := AddedGoals(old(goals), old(newGoal));
        goals == (if sent.Some? && user.Some? && backendOk then sent.value else old(goals)) &&
        newGoal == (if sent.Some? then "" else old(newGoal)) &&
        loading == (if sent.Some? && user.Some? then false else old(loading))
      ensures NoDuplicates(old(goals)) ==> NoDuplicates(goals)
    {
      if NoDuplicates(goals) {
        AddedGoalsKeepNoDuplicates(goals, newGoal);
      }
      var sent := AddedGoals(goals, newGoal);
      if sent.Some? {
        var _ := UpdateGoalsInBackend(sent.value, backendOk);
        newGoal := "";
      }
    }

    /** handleAddSuggestedGoal: the trimmed suggestion is sent when it is not blank and not, as
        given, already a goal; the input is left alone. */
    method HandleAddSuggestedGoal(goal: string, backendOk: bool)
      modifies this
      ensures var sent := SuggestedGoals(old(goals), goal);
        goals == (if sent.Some? && user.Some? && backendOk then sent.value else old(goals)) &&
        loading == (if sent.Some? && user.Some? then false else old(loading))
      ensures newGoal == old(newGoal)
    {
      var sent := SuggestedGoals(goals, goal);
      if sent.Some? {
        var _ := UpdateGoalsInBackend(sent.value, backendOk);
      }
    }

    /** handleRemoveGoal: the list without the element at the index is sent; an index out of
        range sends the list unchanged. */
    method HandleRemoveGoal(indexToRemove: int, backendOk: bool)
      modifies this
      ensures goals == (if user.Some? && backendOk then RemoveAt(old(goals), indexToRemove) else old(goals))
      ensures loading == (if user.Some? then false else old(loading))
      ensures newGoal == old(newGoal)
      ensures NoDuplicates(old(goals)) ==> NoDuplicates(goals)
    {
      if NoDuplicates(goals) {
        RemoveAtKeepsNoDuplicates(goals, indexToRemove);
      }
      var _ := UpdateGoalsInBackend(RemoveAt(goals, indexToRemove), backendOk);
    }
  }
}

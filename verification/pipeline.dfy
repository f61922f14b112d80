/**
 Halt-on-first-failure sequencing: a route runs its helper steps in order,
 stops at the first checked step whose response lacks success, and hands
 that response back. A step marked unchecked runs but its response is never
 looked at. A step that raises ends the run whether it is checked or not,
 since nothing in the route catches the exception.
 */
module Pipeline {
  import opened AdminTypes

  datatype Stage = Stage(call: Call, checked: bool)

  /** The calls a run made, and the response it halted on, if any. */
  datatype Trace = Trace(calls: seq<Call>, halt: Option<StepOutcome>)

  function CallsOf(stages: seq<Stage>): (cs: seq<Call>)
    ensures |cs| == |stages|
    ensures forall i :: 0 <= i < |stages| ==> cs[i] == stages[i].call
  {
    seq(|stages|, i requires 0 <= i < |stages| => stages[i].call)
  }

  /** A stage with this outcome ends the run: it raised, or it is checked
      and its response lacks success. */
  predicate EndsRun(stage: Stage, outcome: StepOutcome)
  {
    outcome.Raised? || (stage.checked && !IsSuccess(outcome.response))
  }

  /** Stage `i` would stop the run. */
  predicate Stops(stages: seq<Stage>, outcomes: seq<StepOutcome>, i: int)
    requires |outcomes| == |stages|
  {
    0 <= i < |stages| && EndsRun(stages[i], outcomes[i])
  }

  /** `k` is the first stage that would stop the run. */
  ghost predicate FirstStop(stages: seq<Stage>, outcomes: seq<StepOutcome>, k: int)
    requires |outcomes| == |stages|
  {
    Stops(stages, outcomes, k) && forall j :: 0 <= j < k ==> !Stops(stages, outcomes, j)
  }

  /** Runs the stages in order; `outcomes[i]` is what stage `i` reports when it
      is invoked. */
  function RunStages(stages: seq<Stage>, outcomes: seq<StepOutcome>): (t: Trace)
    requires |outcomes| == |stages|
    // only a prefix of the stages is ever invoked, in order
    ensures |t.calls| <= |stages| && t.calls == CallsOf(stages[..|t.calls|])
    // it halts exactly when some stage raises or some checked stage fails ...
    ensures t.halt.Some? <==> exists i :: Stops(stages, outcomes, i)
    // ... on the first such stage, whose outcome it hands back verbatim
    ensures t.halt.Some? ==> FirstStop(stages, outcomes, |t.calls| - 1)
                             && t.halt.value == outcomes[|t.calls| - 1]
    // otherwise every stage ran
    ensures t.halt.None? ==> |t.calls| == |stages|
    decreases |stages|
  {
    if stages == [] then Trace([], None)
    else if Stops(stages, outcomes, 0) then Trace([stages[0].call], Some(outcomes[0]))
    else
      var rest := RunStages(stages[1..], outcomes[1..]);
      StopsShift(stages, outcomes);
      CallsOfCons(stages, |rest.calls|);
      Trace([stages[0].call] + rest.calls, rest.halt)
  }

  /** The calls of a non-empty prefix: the first stage's call, then those of
      the rest. */
  lemma CallsOfCons(stages: seq<Stage>, n: nat)
    requires n < |stages|
    ensures CallsOf(stages[..n + 1]) == [stages[0].call] + CallsOf(stages[1..][..n])
  {
    assert stages[..n + 1] == [stages[0]] + stages[1..][..n];
  }

  /** Past a first stage that does not stop the run, the stages that stop it
      are those of the remaining run, shifted by one. */
  lemma StopsShift(stages: seq<Stage>, outcomes: seq<StepOutcome>)
    requires |outcomes| == |stages| > 0
    requires !Stops(stages, outcomes, 0)
    ensures forall i :: 1 <= i < |stages| ==> (Stops(stages, outcomes, i) <==> Stops(stages[1..], outcomes[1..], i - 1))
    ensures (exists i :: Stops(stages, outcomes, i)) <==> exists i :: Stops(stages[1..], outcomes[1..], i)
  {
    assert forall i :: 1 <= i < |stages| ==> stages[1..][i - 1] == stages[i] && outcomes[1..][i - 1] == outcomes[i];
    if i :| Stops(stages, outcomes, i) {
      assert Stops(stages[1..], outcomes[1..], i - 1);
    }
    if i :| Stops(stages[1..], outcomes[1..], i) {
      assert Stops(stages, outcomes, i + 1);
    }
  }

  /** The response of an unchecked stage never changes the run: two outcome
      lists that agree on every checked stage and on every stage that raises
      give the same trace. */
  lemma {:induction false} UncheckedOutcomesIgnored(stages: seq<Stage>, outcomes: seq<StepOutcome>, outcomes': seq<StepOutcome>)
    requires |outcomes| == |stages| == |outcomes'|
    requires forall i :: 0 <= i < |stages| && (stages[i].checked || outcomes[i].Raised? || outcomes'[i].Raised?)
                         ==> outcomes[i] == outcomes'[i]
    ensures RunStages(stages, outcomes) == RunStages(stages, outcomes')
    decreases |stages|
  {
    if stages != [] && !Stops(stages, outcomes, 0) {
      UncheckedOutcomesIgnored(stages[1..], outcomes[1..], outcomes'[1..]);
    }
  }

  /** Stage `i` is invoked exactly when no earlier stage stops the run. */
  lemma InvokedIffNoEarlierStop(stages: seq<Stage>, outcomes: seq<StepOutcome>, i: int)
    requires |outcomes| == |stages| && 0 <= i < |stages|
    ensures i < |RunStages(stages, outcomes).calls| <==> forall j :: 0 <= j < i ==> !Stops(stages, outcomes, j)
  {
    var t := RunStages(stages, outcomes);
    if t.halt.Some? {
      var k := |t.calls| - 1;
      if i >= |t.calls| {
        assert 0 <= k < i && Stops(stages, outcomes, k);
      }
    }
  }

  /** A run whose first stopping stage is `k` invokes stages 0..k and hands
      back stage `k`'s response. */
  lemma RunHaltsAtFirstStop(stages: seq<Stage>, outcomes: seq<StepOutcome>, k: int)
    requires |outcomes| == |stages|
    requires FirstStop(stages, outcomes, k)
    ensures RunStages(stages, outcomes) == Trace(CallsOf(stages[..k + 1]), Some(outcomes[k]))
  {
    var t := RunStages(stages, outcomes);
    assert t.halt.Some?;
    var k' := |t.calls| - 1;
    assert FirstStop(stages, outcomes, k');
    assert !(k < k') && !(k' < k);
  }

  /** A run in which no stage raises and no checked stage fails invokes every
      stage and halts on nothing. */
  lemma RunCompletes(stages: seq<Stage>, outcomes: seq<StepOutcome>)
    requires |outcomes| == |stages|
    requires forall i :: 0 <= i < |stages| ==> !Stops(stages, outcomes, i)
    ensures RunStages(stages, outcomes) == Trace(CallsOf(stages), None)
  {
    assert stages[..|stages|] == stages;
  }
}

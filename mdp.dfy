/**
 * The Markov decision procedure engine: a deterministic MDP whose
 * dynamics, rewards and legal actions are defined by a logic program and
 * computed by a solver, driven one action at a time while its trajectory
 * S0, A0, R1, S1, A1, R2, ... is recorded.
 */
module Mdp {
  import opened Wrappers
  import opened Solver
  import opened Returns

  /** The ways an engine operation fails. */
  datatype Error =
    | ModelNotFound    // the solver yielded no model
    | AtomNotFound     // the model shows no atom where one is read
    | MalformedAtom    // an atom lacks its argument, or its argument is not a number
    | RewardUndefined  // a reward used by a return is the `None` sentinel

  /** The rewards as reals; an undefined reward reads as 0. */
  function RewardValues(rewards: seq<Option<int>>): (rs: seq<real>)
    ensures |rs| == |rewards|
  {
    seq(|rewards|, i requires 0 <= i < |rewards| =>
      if rewards[i].Some? then rewards[i].value as real else 0.0)
  }

  /** Every reward after the initial sentinel R0 is defined. */
  predicate RewardsDefined(rewards: seq<Option<int>>)
  {
    forall i :: 1 <= i < |rewards| ==> rewards[i].Some?
  }

  /** The return G[t] from time t: the discounted sum of R[t+1], ..., R[T-1]. */
  function ReturnAt(rewards: seq<Option<int>>, discount: real, t: nat): real
    requires t < |rewards|
  {
    DiscountedSum(RewardValues(rewards)[t + 1..], discount)
  }

  /** The return at the last recorded time is 0. */
  lemma ReturnAtEnd(rewards: seq<Option<int>>, discount: real)
    requires |rewards| > 0
    ensures ReturnAt(rewards, discount, |rewards| - 1) == 0.0
  {
  }

  /** Each earlier return is the next reward plus the discounted next return. */
  lemma ReturnStep(rewards: seq<Option<int>>, discount: real, t: nat)
    requires t + 1 < |rewards|
    ensures ReturnAt(rewards, discount, t)
         == RewardValues(rewards)[t + 1] + discount * ReturnAt(rewards, discount, t + 1)
  {
    var all := RewardValues(rewards);
    var rs := all[t + 1..];
    assert rs[0] == all[t + 1];
    assert rs[1..] == all[t + 2..];
    DiscountedSumFirstStep(rs, discount);
  }

  /** G obeys the backward return recursion at time t: G[t] is the next
      reward plus the discounted next return. */
  predicate ReturnStepHolds(G: seq<real>, rewards: seq<Option<int>>, discount: real, t: nat)
    requires t + 1 < |G| && t + 1 < |rewards|
  {
    G[t] == RewardValues(rewards)[t + 1] + discount * G[t + 1]
  }

  /** The backward recursion from G[T-1] = 0 has exactly one solution: the
      discounted sums of the rewards that follow each time. */
  lemma {:induction false} RecursionGivesReturns(G: seq<real>, rewards: seq<Option<int>>, discount: real, t: nat)
    requires 0 < |G| == |rewards|
    requires G[|G| - 1] == 0.0
    requires forall k :: 0 <= k < |G| - 1 ==> ReturnStepHolds(G, rewards, discount, k)
    requires t < |G|
    ensures G[t] == ReturnAt(rewards, discount, t)
    decreases |G| - t
  {
    if t == |G| - 1 {
      ReturnAtEnd(rewards, discount);
    } else {
      RecursionGivesReturns(G, rewards, discount, t + 1);
      ReturnStep(rewards, discount, t);
      assert ReturnStepHolds(G, rewards, discount, t);
    }
  }

  /** No return depends on the sentinel R0. */
  lemma ReturnsIgnoreFirstReward(rewards: seq<Option<int>>, other: seq<Option<int>>, discount: real, t: nat)
    requires t < |rewards| == |other|
    requires rewards[1..] == other[1..]
    ensures ReturnAt(rewards, discount, t) == ReturnAt(other, discount, t)
  {
    forall i | t + 1 <= i < |rewards|
      ensures RewardValues(rewards)[i] == RewardValues(other)[i]
    {
      assert rewards[i] == rewards[1..][i - 1] == other[1..][i - 1] == other[i];
    }
    assert RewardValues(rewards)[t + 1..] == RewardValues(other)[t + 1..];
  }

  class MarkovDecisionProcedure {
    var state: set<string>
    const goal: set<string>
    const discount: real
    /** The solver run over the interface program and this MDP's domain program. */
    const solver: Oracle
    var availableActions: set<string>

    /** The trajectory: S0, S1, ...; A0, A1, ...; and R0 (undefined), R1, ... */
    var stateHistory: seq<set<string>>
    var actionHistory: seq<string>
    var rewardHistory: seq<Option<int>>

    /** The three histories stay parallel, the current state is the last
        recorded one, and R0 is undefined. */
    ghost predicate Valid()
      reads this
    {
      && |stateHistory| == |rewardHistory| == |actionHistory| + 1
      && state == stateHistory[|stateHistory| - 1]
      && rewardHistory[0] == None
    }

    /** Sets up the state and the trajectory; the available actions are
        filled in by `Create`. */
    constructor Init(initialState: set<string>, goalState: set<string>, discountRate: real, oracle: Oracle)
      ensures Valid()
      ensures state == initialState && goal == goalState && discount == discountRate && solver == oracle
      ensures stateHistory == [initialState] && actionHistory == [] && rewardHistory == [None]
      ensures availableActions == {}
    {
      state := initialState;
      goal := goalState;
      discount := discountRate;
      solver := oracle;
      stateHistory := [initialState];
      actionHistory := [];
      rewardHistory := [None];
      availableActions := {};
    }

    /** Builds an engine and resolves its available actions; construction
        fails when resolving them fails. */
    static method Create(initialState: set<string>, goalState: set<string>, discountRate: real, oracle: Oracle)
      returns (r: Result<MarkovDecisionProcedure, Error>)
      ensures var models := oracle(ActionsQuery(initialState, goalState));
        && (r.Success? <==> |models| > 0 && forall i :: 0 <= i < |models[0]| ==> HasArgument(models[0][i]))
        && (r.Failure? ==> r.error == if |models| == 0 then ModelNotFound else MalformedAtom)
      ensures r.Success? ==>
        && fresh(r.value) && r.value.Valid()
        && r.value.state == initialState && r.value.goal == goalState
        && r.value.discount == discountRate && r.value.solver == oracle
        && r.value.stateHistory == [initialState]
        && r.value.actionHistory == []
        && r.value.rewardHistory == [None]
        && r.value.availableActions == FirstArguments(oracle(ActionsQuery(initialState, goalState))[0])
    {
      var mdp := new MarkovDecisionProcedure.Init(initialState, goalState, discountRate, oracle);
      var actions := mdp.ComputeAvailableActions();
      match actions
      case Failure(e) =>
        r := Failure(e);
      case Success(a) =>
        mdp.availableActions := a;
        r := Success(mdp);
    }

    /** Applies `action`: the first model the solver yields gives the
        successor state, the reward and the new executable actions, and one
        entry is appended to each history. On failure nothing changes. */
    method Transition(action: string) returns (r: Outcome<Error>)
      requires Valid()
      modifies this
      ensures Valid()
      ensures var models := solver(TransitionQuery(old(state), goal, action));
        && (r.Pass? <==> |models| > 0 && forall i :: 0 <= i < |models[0]| ==> TransitionAtomOk(models[0][i]))
        && (r.Fail? ==> r.error == if |models| == 0 then ModelNotFound else MalformedAtom)
      ensures r.Fail? ==> unchanged(this)
      ensures r.Pass? ==>
        var model := solver(TransitionQuery(old(state), goal, action))[0];
        && state == ArgumentsNamed(model, "state")
        && availableActions == ArgumentsNamed(model, "executable")
        && stateHistory == old(stateHistory) + [state]
        && actionHistory == old(actionHistory) + [action]
        && rewardHistory == old(rewardHistory) + [LastReward(model)]
    {
      var models := solver(TransitionQuery(state, goal, action));
      if |models| == 0 {
        return Fail(ModelNotFound);
      }
      var model := models[0];
      var nextReward: Option<int> := None;
      var nextState: set<string> := {};
      var actions: set<string> := {};
      for i := 0 to |model|
        invariant nextState == ArgumentsNamed(model[..i], "state")
        invariant actions == ArgumentsNamed(model[..i], "executable")
        invariant nextReward == LastReward(model[..i])
        invariant forall k :: 0 <= k < i ==> TransitionAtomOk(model[k])
        invariant unchanged(this)
      {
        var symbol := model[i];
        assert model[..i + 1] == model[..i] + [symbol];
        assert model[..i + 1][..i] == model[..i];
        ArgumentsNamedSnoc(model[..i], symbol, "state");
        ArgumentsNamedSnoc(model[..i], symbol, "executable");
        if symbol.name == "state" {
          if |symbol.arguments| == 0 {
            return Fail(MalformedAtom);
          }
          nextState := nextState + {TermText(symbol.arguments[0])};
        }
        if symbol.name == "nextReward" {
          if |symbol.arguments| == 0 || !symbol.arguments[0].Number? {
            return Fail(MalformedAtom);
          }
          nextReward := Some(symbol.arguments[0].value);
        }
        if symbol.name == "executable" {
          if |symbol.arguments| == 0 {
            return Fail(MalformedAtom);
          }
          actions := actions + {TermText(symbol.arguments[0])};
        }
      }
      assert model[..|model|] == model;
      state := nextState;
      availableActions := actions;
      actionHistory := actionHistory + [action];
      stateHistory := stateHistory + [nextState];
      rewardHistory := rewardHistory + [nextReward];
      r := Pass;
    }

    /** The optimal return within the planning horizon, read from the first
        shown atom `maxReturn(n)` of the first model; when no horizon is
        given it is twice the number of facts in the current state. */
    function ComputeOptimalReturn(maxPlanningHorizon: Option<int>): (r: Result<real, Error>)
      reads this
      ensures var models := solver(PlanningQuery(state, goal, maxPlanningHorizon.GetOr(2 * |state|)));
        && (r.Success? <==>
              |models| > 0 && |models[0]| > 0
              && HasArgument(models[0][0]) && models[0][0].arguments[0].Number?)
        && (r.Success? ==> r.value == models[0][0].arguments[0].value as real)
        && (r.Failure? ==>
              r.error == (if |models| == 0 then ModelNotFound
                          else if |models[0]| == 0 then AtomNotFound
                          else MalformedAtom))
      ensures r.Success? ==> r.value == r.value.Floor as real
    {
      var horizon := if maxPlanningHorizon.None? then 2 * |state| else maxPlanningHorizon.value;
      var models := solver(PlanningQuery(state, goal, horizon));
      if |models| == 0 then Failure(ModelNotFound)
      else if |models[0]| == 0 then Failure(AtomNotFound)
      else
        var symbol := models[0][0];
        if |symbol.arguments| == 0 then Failure(MalformedAtom)
        else match symbol.arguments[0]
          case Number(n) => Success(n as real)
          case Function(_) => Failure(MalformedAtom)
    }

    /** Without a horizon the planner uses twice the size of the current state. */
    lemma DefaultPlanningHorizon()
      ensures ComputeOptimalReturn(None) == ComputeOptimalReturn(Some(2 * |state|))
    {
    }

    /** The discounted returns G[0..T-1] of the recorded trajectory, computed
        backwards from G[T-1] = 0; fails when a reward after R0 is undefined. */
    method ReturnHistory() returns (r: Result<seq<real>, Error>)
      requires Valid()
      ensures r.Success? <==> RewardsDefined(rewardHistory)
      ensures r.Failure? ==> r.error == RewardUndefined
      ensures r.Success? ==>
        && |r.value| == |stateHistory|
        && r.value[|r.value| - 1] == 0.0
        && (forall t :: 0 <= t < |r.value| - 1 ==> ReturnStepHolds(r.value, rewardHistory, discount, t))
        && (forall t :: 0 <= t < |r.value| ==> r.value[t] == ReturnAt(rewardHistory, discount, t))
    {
      var T := |stateHistory|;
      var G := new real[T](_ => 0.0);
      for t := T - 1 downto 0
        invariant G[T - 1] == 0.0
        invariant forall k :: t < k < T ==> rewardHistory[k].Some?
        invariant forall k :: t <= k < T - 1 ==> ReturnStepHolds(G[..], rewardHistory, discount, k)
      {
        match rewardHistory[t + 1]
        case None =>
          return Failure(RewardUndefined);
        case Some(x) =>
          ghost var before := G[..];
          G[t] := x as real + discount * G[t + 1];
          forall k | t <= k < T - 1
            ensures ReturnStepHolds(G[..], rewardHistory, discount, k)
          {
            if k > t {
              assert ReturnStepHolds(before, rewardHistory, discount, k);
              assert G[..][k] == before[k] && G[..][k + 1] == before[k + 1];
            }
          }
      }
      var history := G[..];
      forall t | 0 <= t < T
        ensures history[t] == ReturnAt(rewardHistory, discount, t)
      {
        RecursionGivesReturns(history, rewardHistory, discount, t);
      }
      return Success(history);
    }

    /** The executable actions of the current state: the printed first
        argument of every atom shown in the first model. */
    method ComputeAvailableActions() returns (r: Result<set<string>, Error>)
      ensures var models := solver(ActionsQuery(state, goal));
        && (r.Success? <==> |models| > 0 && forall i :: 0 <= i < |models[0]| ==> HasArgument(models[0][i]))
        && (r.Failure? ==> r.error == if |models| == 0 then ModelNotFound else MalformedAtom)
        && (r.Success? ==> r.value == FirstArguments(models[0]))
    {
      var models := solver(ActionsQuery(state, goal));
      if |models| == 0 {
        return Failure(ModelNotFound);
      }
      var model := models[0];
      var actions: set<string> := {};
      for i := 0 to |model|
        invariant actions == FirstArguments(model[..i])
        invariant forall k :: 0 <= k < i ==> HasArgument(model[k])
      {
        var symbol := model[i];
        assert model[..i + 1] == model[..i] + [symbol];
        FirstArgumentsSnoc(model[..i], symbol);
        if |symbol.arguments| == 0 {
          return Failure(MalformedAtom);
        }
        actions := actions + {TermText(symbol.arguments[0])};
      }
      assert model[..|model|] == model;
      return Success(actions);
    }
  }

  /** Two engines in the same state, with the same goal and solver, given
      the same action, reach the same successor state, actions and reward. */
  method TransitionIsDeterministic(a: MarkovDecisionProcedure, b: MarkovDecisionProcedure, action: string)
    returns (ra: Outcome<Error>, rb: Outcome<Error>)
    requires a != b && a.Valid() && b.Valid()
    requires a.state == b.state && a.goal == b.goal && a.solver == b.solver
    modifies a, b
    ensures a.Valid() && b.Valid()
    ensures ra == rb
    ensures ra.Pass? ==>
      && a.state == b.state
      && a.availableActions == b.availableActions
      && a.rewardHistory[|a.rewardHistory| - 1] == b.rewardHistory[|b.rewardHistory| - 1]
  {
    ra := a.Transition(action);
    rb := b.Transition(action);
  }
}

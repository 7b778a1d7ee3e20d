# Markov decision procedure engine, modelled in Dafny

This project models the engine class `MarkovDecisionProcedure` of a
reinforcement-learning research code base. The engine simulates a
deterministic Markov decision process whose dynamics, rewards and legal
actions are written as an answer-set program and computed by the clingo
solver. The engine holds:

- a current state (a set of fact strings);
- a fixed goal state and discount rate;
- the actions executable in the current state;
- a trajectory of three parallel histories: states S0, S1, ...; actions
  A0, A1, ...; and rewards R0, R1, ..., where R0 is the undefined sentinel
  `None`.

It issues three kinds of solver query:
- one to find the executable actions (`t = 0`);
- one to apply an action (`t = 1`);
- one to find the optimal return within a planning horizon.

It also derives the discounted returns of the recorded trajectory.

Files:

- `wrappers.dfy` (module `Wrappers`): `Option`, `Result`, `Outcome`.
- `solver.dfy` (module `Solver`): the solver's terms, symbols, models and
  queries. The solver itself is an `Oracle`, a total function from a query
  to the models it enumerates, in enumeration order. The module also holds
  the functions that read a model's symbols.
- `returns.dfy` (module `Returns`): the discounted sum of a reward sequence
  over exact reals, and its one-step recursion.
- `mdp.dfy` (module `Mdp`): the engine as a class, with its invariant
  `Valid()`. The three histories stay parallel, the current state is the
  last recorded state, and R0 is `None`.

Python exceptions become error values instead of preconditions:

| Python failure | error value |
|---|---|
| `next` or `[0]` on an empty model stream | `ModelNotFound` |
| `[0]` on a model that shows no atom | `AtomNotFound` |
| `arguments[0]` on an atom without arguments, or `.number` on a non-number term | `MalformedAtom` |
| `None + float` in `return_history` | `RewardUndefined` |

Every failing operation leaves the engine unchanged.

Three behaviours of the program that the model keeps as they are:

- `transition` does not check that the solver yields a single model. It
  takes the first one.
- `compute_optimal_return` first collects every model with
  `list(models)`. It then reads the first shown atom of `list(models)[0]`.
  The model assumes that this stored first element still shows the atoms
  of the first model enumerated.
- The program raises Python's `StopIteration`, `IndexError`, `TypeError`
  and clingo's error on `.number`. The model gives them the names in the
  table above.

## Model

| member | source | states |
|---|---|---|
| `Mdp.MarkovDecisionProcedure.Init` | mdp/markov_decision_procedure.py:13-27 | the state and goal are the given sets and the discount is the given rate; the histories are `[initial_state]`, `[]` and `[None]`, so the length and last-state invariant `Valid()` holds from the start |
| `Mdp.MarkovDecisionProcedure.Create` | mdp/markov_decision_procedure.py:13-29 | construction succeeds exactly when the `t = 0` actions query yields a model whose shown atoms all carry an argument; the new engine then has the initial trajectory and the available actions are the first arguments of that model; otherwise it fails with `ModelNotFound` or `MalformedAtom` |
| `Mdp.MarkovDecisionProcedure.Transition` | mdp/markov_decision_procedure.py:31-79 | the transition succeeds exactly when the solver yields a model and every `state`, `executable` and `nextReward` atom of the first model is well formed; on failure nothing changes (`ModelNotFound` when there is no model, else `MalformedAtom`); on success the state is exactly the `state` arguments and the actions are exactly the `executable` arguments, with none kept from before; the reward is the last `nextReward` number, or `None`; each history grows by exactly that one entry, its old contents a prefix; goal, discount and solver are constants; `Valid()` is preserved |
| `Mdp.TransitionIsDeterministic` | mdp/markov_decision_procedure.py:31-79 | two engines in the same state, with the same goal and solver, given the same action, both succeed or both fail with the same error; on success they reach the same state, the same actions and the same reward |
| `Mdp.MarkovDecisionProcedure.ComputeOptimalReturn` | mdp/markov_decision_procedure.py:82-104 | it reads only the current state, goal and solver; it succeeds exactly when the first model of the planning query has a first shown atom whose argument is a number, and returns that number, an integer-valued real; otherwise it fails with `ModelNotFound`, `AtomNotFound` or `MalformedAtom` |
| `Mdp.MarkovDecisionProcedure.DefaultPlanningHorizon` | mdp/markov_decision_procedure.py:84-85 | with no horizon given, the planner answers as it does for the horizon `2 * len(state)` |
| `Mdp.MarkovDecisionProcedure.ReturnHistory` | mdp/markov_decision_procedure.py:107-116 | it succeeds exactly when every reward after R0 is defined; the result has one entry per recorded state and the last entry is 0; for every `t < T-1`, `G[t] = R[t+1] + discount * G[t+1]`; every `G[t]` equals the closed-form discounted sum of `R[t+1..T-1]` |
| `Mdp.MarkovDecisionProcedure.ComputeAvailableActions` | mdp/markov_decision_procedure.py:118-142 | it succeeds exactly when the `t = 0` query yields a model and every shown atom of the first model has an argument; the result is then exactly the set of printed first arguments of those atoms; otherwise it fails with `ModelNotFound` or `MalformedAtom` |
| `Mdp.ReturnAtEnd` | mdp/markov_decision_procedure.py:110-111 | the return at the last recorded time is 0 |
| `Mdp.ReturnStep` | mdp/markov_decision_procedure.py:113-114 | the closed-form return from time t is the next reward plus the discount times the return from t+1 |
| `Mdp.RecursionGivesReturns` | mdp/markov_decision_procedure.py:110-116 | any sequence that ends in 0 and obeys the backward recursion is exactly the closed-form discounted returns, so the recursion has one solution |
| `Mdp.ReturnsIgnoreFirstReward` | mdp/markov_decision_procedure.py:27 | two reward histories that differ only in R0 give the same return at every time, so R0 is never read |
| `Returns.DiscountedSumFirstStep` | mdp/markov_decision_procedure.py:114 | the sum over k of `g^k * r[k]` is `r[0] + g` times the same sum over the remaining rewards |
| `Solver.LastRewardIsLastAtom` | mdp/markov_decision_procedure.py:49-65 | for a well-formed model, the reward read is `None` exactly when no `nextReward` atom is shown; otherwise it is the number of the last `nextReward` atom |
| `Solver.FirstArgumentsSnoc` | mdp/markov_decision_procedure.py:135-140 | reading one more shown atom adds exactly that atom's first argument, when it has one, to the set of actions |
| `Solver.ArgumentsNamedSnoc` | mdp/markov_decision_procedure.py:53-71 | reading one more atom adds exactly its first argument to the set collected for its predicate name, and nothing to the other sets |
| `Solver.DigitTextValue` | mdp/markov_decision_procedure.py:59-60 | the decimal text that `str` gives for a natural number reads back as that number |
| `Solver.IntTextValue` | mdp/markov_decision_procedure.py:59-60 | the printed form of any integer, with its optional `-`, reads back as that integer |
| `Solver.IntTextInjective` | mdp/markov_decision_procedure.py:135-140 | different integers print differently, so collecting printed number terms into a set never merges two numbers |
| `Solver.IntText` | mdp/markov_decision_procedure.py:59-60 | the printed form of an integer term is non-empty and begins with `-` exactly when the integer is negative |
| `Solver.DigitText` | mdp/markov_decision_procedure.py:59-60 | the decimal form of a natural number is non-empty, is all digits, and is a single digit exactly when the number is below 10 |

## Left out

- The clingo API is not modelled: loading the two `.lp` programs, `ctl.add`, grounding, solving, and the enumeration and optimisation configuration. It is foreign code over programs that are not part of this model. It is replaced by the `Oracle` parameter. A `Query` records the facts, the `t` constant, the action, the `#show` directives and whether all models are enumerated. The two program file names are folded into the oracle.
- `file_path` and its `os.path` handling are filesystem plumbing.
- The optimality of `compute_optimal_return` is not modelled. Its monotonicity in the horizon and the "start equals goal gives 0" case are not modelled either. All three depend on the answer-set encoding, which is not part of this model.
- `float(...)` and IEEE arithmetic are not modelled. The discount and the returns are exact `real` values, and rewards are unbounded integers.
- `Mdp.MarkovDecisionProcedure.Init`: `available_actions` is unset until `__init__` resolves it. `Init` sets the placeholder `{}` and `Create` replaces it, so engines built by `Create` never carry the placeholder. An engine built directly with `Init` does carry it.
- `Mdp.MarkovDecisionProcedure.Transition`: when several atoms are malformed, Python raises on the first one it meets. The model reports `MalformedAtom` without saying which atom. In both, nothing is modified.
- The order in which the program writes the `current(...)` and `subgoal(...)` facts is not modelled. It follows frozenset iteration order, which can vary between processes and between equal sets. The `Oracle` takes the facts as sets, so it assumes that clingo's models and their symbol order do not depend on that order. `transition` reads the first model, and when a model shows several `nextReward` atoms, the last one wins. So `Mdp.TransitionIsDeterministic` relies on this assumption when the solver yields several models or several reward atoms.
- `Mdp.MarkovDecisionProcedure.ComputeOptimalReturn`: the model assumes that the first element of `list(models)`, read after the whole enumeration, still shows the atoms of the first model enumerated. Clingo does not promise this for model objects kept past the search for the next model.
- experiments/exp5/2_clean_htcondor_output.py is a one-shot pandas CSV script. It is I/O glue over a library that is not part of this model.
- experiments/exp5/generate_arguments.py formats job-submission text and reads and writes files. Its only logic is string formatting of CLI arguments.

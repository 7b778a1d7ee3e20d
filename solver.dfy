/**
 * The answer-set solver as the engine sees it: the queries it issues, the
 * models it gets back, and how the symbols of a model are read.
 *
 * The solver itself (loading the interface and domain programs, grounding,
 * solving, optimising) is foreign code; it is represented by an `Oracle`,
 * a total function from a query to the sequence of models the solver
 * enumerates for it, in enumeration order.
 */
module Solver {
  import opened Wrappers

  /** An argument of a shown atom: an uninterpreted function term such as
      `move(a,table)`, given by its printed form, or an integer. */
  datatype Term = Function(text: string) | Number(value: int)

  /** A shown atom such as `state(on(a,b))` or `nextReward(-1)`. */
  datatype Symbol = Symbol(name: string, arguments: seq<Term>)

  /** The shown symbols of one stable model, in the order the solver lists them. */
  type Model = seq<Symbol>

  /** The input facts and settings of one solver call: the `current/1` facts,
      the `subgoal/1` facts, the time constant `t`, the optional `action/1`
      fact, the `#show` directives and whether every model is enumerated. */
  datatype Query = Query(
    current: set<string>,
    subgoal: set<string>,
    horizon: int,
    action: Option<string>,
    shown: set<string>,
    enumerateAll: bool)

  /** The solver: the models it yields for a query, first enumerated first. */
  type Oracle = Query -> seq<Model>

  /** The query that discovers the executable actions of a state (t = 0). */
  function ActionsQuery(current: set<string>, subgoal: set<string>): Query
  {
    Query(current, subgoal, 0, None, {"executable/1"}, false)
  }

  /** The query that applies `action` to a state for one step (t = 1). */
  function TransitionQuery(current: set<string>, subgoal: set<string>, action: string): Query
  {
    Query(current, subgoal, 1, Some(action), {"state/1", "nextReward/1", "executable/1"}, false)
  }

  /** The query that asks for the best return within `horizon` steps. */
  function PlanningQuery(current: set<string>, subgoal: set<string>, horizon: int): Query
  {
    Query(current, subgoal, horizon, None, {"maxReturn/1"}, true)
  }

  /** Decimal digits of a natural number, as Python's `str` prints it. */
  function DigitText(n: nat): (s: string)
    ensures |s| > 0
    ensures forall i :: 0 <= i < |s| ==> '0' <= s[i] <= '9'
    ensures n < 10 <==> |s| == 1
    decreases n
  {
    if n < 10 then ["0123456789"[n]] else DigitText(n / 10) + ["0123456789"[n % 10]]
  }

  /** The printed form of an integer term. */
  function IntText(i: int): (s: string)
    ensures |s| > 0
    ensures s[0] == '-' <==> i < 0
  {
    if i < 0 then "-" + DigitText(-i) else DigitText(i)
  }

  /** The number a string of decimal digits denotes. */
  function DigitsValue(s: string): int
    decreases |s|
  {
    if s == [] then 0 else DigitsValue(s[..|s| - 1]) * 10 + (s[|s| - 1] as int - '0' as int)
  }

  /** The number a printed integer denotes: digits, with an optional `-`. */
  function IntValue(s: string): int
  {
    if |s| > 0 && s[0] == '-' then -DigitsValue(s[1..]) else DigitsValue(s)
  }

  /** The decimal digits of `n` read back as `n`. */
  lemma {:induction false} DigitTextValue(n: nat)
    ensures DigitsValue(DigitText(n)) == n
    decreases n
  {
    var s := DigitText(n);
    var d := n % 10;
    assert "0123456789"[d] as int - '0' as int == d by {
      assert "0123456789"[d] == ['0', '1', '2', '3', '4', '5', '6', '7', '8', '9'][d];
    }
    if n >= 10 {
      DigitTextValue(n / 10);
      assert s[..|s| - 1] == DigitText(n / 10);
    } else {
      assert s[..0] == [];
    }
  }

  /** The printed form of an integer reads back as that integer. */
  lemma IntTextValue(i: int)
    ensures IntValue(IntText(i)) == i
  {
    if i < 0 {
      var digits := DigitText(-i);
      var s := "-" + digits;
      assert IntText(i) == s;
      assert s[1..] == digits;
      DigitTextValue(-i);
      assert IntValue(s) == -DigitsValue(digits);
    } else {
      var digits := DigitText(i);
      assert IntText(i) == digits;
      assert digits[0] != '-';
      DigitTextValue(i);
    }
  }

  /** Different integers print differently, so a set of printed terms loses
      no number. */
  lemma IntTextInjective(i: int, j: int)
    requires IntText(i) == IntText(j)
    ensures i == j
  {
    IntTextValue(i);
    IntTextValue(j);
  }

  /** The printed form of a term, as `str(term)` gives it. */
  function TermText(t: Term): string
  {
    match t
    case Function(text) => text
    case Number(n) => IntText(n)
  }

  predicate HasArgument(s: Symbol)
  {
    |s.arguments| > 0
  }

  /** The printed first argument of every symbol of `m` that has one. */
  function FirstArguments(m: Model): set<string>
  {
    set s | s in m && HasArgument(s) :: TermText(s.arguments[0])
  }

  /** The printed first argument of every symbol of `m` called `name`. */
  function ArgumentsNamed(m: Model, name: string): set<string>
  {
    set s | s in m && s.name == name && HasArgument(s) :: TermText(s.arguments[0])
  }

  /** A symbol the transition reads without raising: `state` and
      `executable` atoms carry an argument, `nextReward` atoms a number. */
  predicate TransitionAtomOk(s: Symbol)
  {
    && (s.name == "state" ==> HasArgument(s))
    && (s.name == "executable" ==> HasArgument(s))
    && (s.name == "nextReward" ==> HasArgument(s) && s.arguments[0].Number?)
  }

  predicate IsRewardAtom(s: Symbol)
  {
    s.name == "nextReward" && HasArgument(s) && s.arguments[0].Number?
  }

  /** The reward a model reports: the number of its last `nextReward` atom,
      since each one overwrites the one before. */
  function LastReward(m: Model): Option<int>
    decreases |m|
  {
    if m == [] then None
    else if IsRewardAtom(m[|m| - 1]) then Some(m[|m| - 1].arguments[0].value)
    else LastReward(m[..|m| - 1])
  }

  /** Extending a model by one symbol adds at most that symbol's argument. */
  lemma FirstArgumentsSnoc(m: Model, s: Symbol)
    ensures FirstArguments(m + [s])
         == FirstArguments(m) + (if HasArgument(s) then {TermText(s.arguments[0])} else {})
  {
  }

  lemma ArgumentsNamedSnoc(m: Model, s: Symbol, name: string)
    ensures ArgumentsNamed(m + [s], name)
         == ArgumentsNamed(m, name)
          + (if s.name == name && HasArgument(s) then {TermText(s.arguments[0])} else {})
  {
  }

  /** `LastReward` is `None` exactly when the model has no `nextReward` atom;
      otherwise it is the number carried by the last one. */
  lemma {:induction false} LastRewardIsLastAtom(m: Model)
    requires forall i :: 0 <= i < |m| ==> TransitionAtomOk(m[i])
    ensures LastReward(m).None? <==> forall i :: 0 <= i < |m| ==> m[i].name != "nextReward"
    ensures LastReward(m).Some? ==>
      exists i :: 0 <= i < |m| && IsRewardAtom(m[i])
                  && m[i].arguments[0] == Number(LastReward(m).value)
                  && forall j :: i < j < |m| ==> m[j].name != "nextReward"
    decreases |m|
  {
    if m != [] {
      var n := |m| - 1;
      if !IsRewardAtom(m[n]) {
        var p := m[..n];
        assert forall i :: 0 <= i < |p| ==> p[i] == m[i];
        LastRewardIsLastAtom(p);
        if LastReward(m).Some? {
          var i :| 0 <= i < |p| && IsRewardAtom(p[i])
                   && p[i].arguments[0] == Number(LastReward(p).value)
                   && forall j :: i < j < |p| ==> p[j].name != "nextReward";
          assert m[i] == p[i];
        }
      } else {
        assert m[n].name == "nextReward";
      }
    }
  }
}

/** The admission gate (`src/limits.rs`): any number of attempts running the compare-and-swap
    loop of `try_enter` at once, passes being dropped, and the maximum being changed. */
module Gate {
  import opened Prelude

  /** Where an attempt is; one that was admitted is inside until its pass is dropped. */
  datatype Stage =
    | Loaded(max: nat)
    | Trying(max: nat, current: nat)
    | Refusing
    | Inside
    | Refused
    | Left

  /** The gate, every attempt so far, and every maximum it ever had. */
  datatype State = State(max: nat, active: nat, rejected: nat, attempts: map<nat, Stage>, maxima: set<nat>)

  datatype Action =
    | Start(id: nat)
    | Load(id: nat)
    | Exchange(id: nat, spurious: bool)
    | CountRefusal(id: nat)
    | DropPass(id: nat)
    | SetMax(max: nat)

  function In(attempts: map<nat, Stage>, stage: Stage): set<nat> {
    set id | id in attempts && attempts[id] == stage
  }

  function New(max: nat): State {
    State(max, 0, 0, map[], {max})
  }

  /** One atomic step; an action that is not possible changes nothing. `fetch_sub` at zero
      would wrap around: that it never happens is part of the invariant. */
  function Next(s: State, a: Action): State {
    match a
    case Start(id) =>
      if id in s.attempts then s else s.(attempts := s.attempts[id := Loaded(s.max)])
    case Load(id) =>
      if id in s.attempts && s.attempts[id].Loaded? then
        s.(attempts := s.attempts[id := Trying(s.attempts[id].max, s.active)])
      else s
    case Exchange(id, spurious) =>
      if !(id in s.attempts && s.attempts[id].Trying?) then s
      else
        var Trying(max, current) := s.attempts[id];
        if max != 0 && current >= max then s.(attempts := s.attempts[id := Refusing])
        else if s.active == current && !spurious then
          s.(active := s.active + 1, attempts := s.attempts[id := Inside])
        else s.(attempts := s.attempts[id := Trying(max, s.active)])
    case CountRefusal(id) =>
      if id in s.attempts && s.attempts[id] == Refusing then
        s.(rejected := s.rejected + 1, attempts := s.attempts[id := Refused])
      else s
    case DropPass(id) =>
      if id in s.attempts && s.attempts[id] == Inside then
        s.(active := if s.active == 0 then WRAPPED else s.active - 1, attempts := s.attempts[id := Left])
      else s
    case SetMax(max) => s.(max := max, maxima := s.maxima + {max})
  }

  const WRAPPED: nat := 0xffff_ffff_ffff_ffff

  function Run(max: nat, actions: seq<Action>): State {
    if actions == [] then New(max)
    else Next(Run(max, actions[..|actions| - 1]), actions[|actions| - 1])
  }

  /** The count is that of the passes alive, the refusals that of the attempts refused, and
      no attempt knows a maximum the gate never had. */
  ghost predicate Inv(s: State) {
    && s.active == |In(s.attempts, Inside)|
    && s.rejected == |In(s.attempts, Refused)|
    && s.max in s.maxima
    && (forall id :: id in s.attempts && s.attempts[id].Loaded? ==> s.attempts[id].max in s.maxima)
    && (forall id :: id in s.attempts && s.attempts[id].Trying? ==> s.attempts[id].max in s.maxima)
  }

  /** Moving one attempt between stages. */
  lemma Moved(attempts: map<nat, Stage>, id: nat, to: Stage, stage: Stage)
    ensures var was := id in attempts && attempts[id] == stage;
            |In(attempts[id := to], stage)|
            == |In(attempts, stage)| - (if was then 1 else 0) + (if to == stage then 1 else 0)
  {
    var before, after := In(attempts, stage), In(attempts[id := to], stage);
    assert id in after <==> to == stage;
    assert forall k :: k != id ==> (k in after <==> k in before);
    assert after - {id} == before - {id};
    assert id in before ==> before == (before - {id}) + {id};
    assert id !in before ==> before == before - {id};
    assert id in after ==> after == (after - {id}) + {id};
    assert id !in after ==> after == after - {id};
  }

  lemma NextKeeps(s: State, a: Action)
    requires Inv(s)
    ensures Inv(Next(s, a))
  {
    hide In;
    if !a.SetMax? {
      var t := Next(s, a);
      if t != s {
        assert t.attempts == s.attempts[a.id := t.attempts[a.id]];
        Moved(s.attempts, a.id, t.attempts[a.id], Inside);
        Moved(s.attempts, a.id, t.attempts[a.id], Refused);
      }
    }
  }

  /** In every interleaving the active count is the number of live passes, and every finished
      attempt was admitted or is counted as refused. */
  lemma {:induction false} CountsAreExact(max: nat, actions: seq<Action>)
    ensures Inv(Run(max, actions))
    ensures var s := Run(max, actions);
            var finished := set id | id in s.attempts && Finished(s.attempts[id]);
            |finished| == |In(s.attempts, Inside)| + |In(s.attempts, Left)| + s.rejected
  {
    if actions == [] {
      assert In(New(max).attempts, Inside) == {} && In(New(max).attempts, Refused) == {};
    } else {
      CountsAreExact(max, actions[..|actions| - 1]);
      NextKeeps(Run(max, actions[..|actions| - 1]), actions[|actions| - 1]);
    }
    FinishedSplits(Run(max, actions).attempts);
  }

  /** `try_enter` has returned. */
  predicate Finished(stage: Stage) {
    stage.Inside? || stage.Left? || stage.Refused?
  }

  lemma FinishedSplits(attempts: map<nat, Stage>)
    ensures |set id | id in attempts && Finished(attempts[id])|
         == |In(attempts, Inside)| + |In(attempts, Left)| + |In(attempts, Refused)|
  {
    assert (set id | id in attempts && Finished(attempts[id]))
        == In(attempts, Inside) + In(attempts, Left) + In(attempts, Refused);
  }

  /** While every maximum so far was a real one of at most `bound`, no more than `bound` are
      ever inside, not even for an instant. */
  lemma {:induction false} NeverAbove(max: nat, actions: seq<Action>, bound: nat)
    requires forall m :: m in Run(max, actions).maxima ==> 0 < m <= bound
    ensures Run(max, actions).active <= bound
  {
    if actions != [] {
      var s := Run(max, actions[..|actions| - 1]);
      assert forall m :: m in s.maxima ==> m in Run(max, actions).maxima;
      NeverAbove(max, actions[..|actions| - 1], bound);
      CountsAreExact(max, actions[..|actions| - 1]);
      NoWrap(s, actions[|actions| - 1]);
    }
  }

  /** A pass alive keeps the count above zero: dropping it never wraps around. */
  lemma NoWrap(s: State, a: Action)
    requires Inv(s)
    ensures a.DropPass? && a.id in s.attempts && s.attempts[a.id] == Inside ==> s.active > 0
  {
    if a.DropPass? && a.id in s.attempts && s.attempts[a.id] == Inside {
      assert a.id in In(s.attempts, Inside);
    }
  }

  /** A maximum that is never changed is never exceeded. */
  lemma FixedMaximum(max: nat, actions: seq<Action>)
    requires max > 0 && forall i :: 0 <= i < |actions| ==> !actions[i].SetMax?
    ensures Run(max, actions).active <= max
  {
    OneMaximum(max, actions);
    NeverAbove(max, actions, max);
  }

  lemma {:induction false} OneMaximum(max: nat, actions: seq<Action>)
    requires forall i :: 0 <= i < |actions| ==> !actions[i].SetMax?
    ensures Run(max, actions).maxima == {max}
  {
    if actions != [] {
      OneMaximum(max, actions[..|actions| - 1]);
    }
  }

  /** An attempt that meets no other is admitted exactly if there is no maximum or a slot is
      free, however often the exchange fails spuriously. */
  lemma AloneDecides(s: State, id: nat, failures: nat)
    requires id !in s.attempts
    ensures var t := Alone(s, id, failures);
            && id in t.attempts
            && (t.attempts[id] == Inside <==> s.max == 0 || s.active < s.max)
            && (t.attempts[id] == Refused <==> s.max != 0 && s.active >= s.max)
            && t.active == s.active + (if s.max == 0 || s.active < s.max then 1 else 0)
  {
    var s1 := Next(Next(s, Start(id)), Load(id));
    Retries(s1, id, failures, s.max);
  }

  /** One attempt from start to end, its exchange failing `failures` times. */
  function Alone(s: State, id: nat, failures: nat): State {
    Next(Retried(Next(Next(s, Start(id)), Load(id)), id, failures), CountRefusal(id))
  }

  function Retried(s: State, id: nat, failures: nat): State
    decreases failures
  {
    if failures == 0 then Next(s, Exchange(id, false))
    else Retried(Next(s, Exchange(id, true)), id, failures - 1)
  }

  lemma {:induction false} Retries(s: State, id: nat, failures: nat, max: nat)
    requires id in s.attempts
    requires s.attempts[id] == Trying(max, s.active)
          || (s.attempts[id] == Refusing && max != 0 && s.active >= max)
    ensures var t := Retried(s, id, failures);
            && id in t.attempts
            && t.attempts[id] == (if max == 0 || s.active < max then Inside else Refusing)
            && t.active == s.active + (if max == 0 || s.active < max then 1 else 0)
    decreases failures
  {
    if failures > 0 {
      Retries(Next(s, Exchange(id, true)), id, failures - 1, max);
    }
  }

  // ----- changing the maximum ---------------------------------------------------------------------

  function RunFrom(s: State, actions: seq<Action>): State {
    if actions == [] then s
    else Next(RunFrom(s, actions[..|actions| - 1]), actions[|actions| - 1])
  }

  /** Every attempt under way knows the maximum `m`. */
  ghost predicate AllKnow(s: State, m: nat) {
    && s.max == m
    && (forall id :: id in s.attempts && s.attempts[id].Loaded? ==> s.attempts[id].max == m)
    && (forall id :: id in s.attempts && s.attempts[id].Trying? ==> s.attempts[id].max == m)
  }

  /** A new maximum takes effect: with no attempt under way when it is set, nobody more is let
      in while there are that many inside, and those already inside stay. */
  lemma {:induction false} NewMaximumHolds(s: State, m: nat, actions: seq<Action>)
    requires Inv(s) && m > 0
    requires forall id :: id in s.attempts ==> !s.attempts[id].Loaded? && !s.attempts[id].Trying?
    requires forall i :: 0 <= i < |actions| ==> !actions[i].SetMax?
    ensures var t := RunFrom(Next(s, SetMax(m)), actions);
            Inv(t) && AllKnow(t, m) && t.active <= Max(s.active, m)
    decreases |actions|
  {
    if actions == [] {
      NextKeeps(s, SetMax(m));
    } else {
      var front, a := actions[..|actions| - 1], actions[|actions| - 1];
      NewMaximumHolds(s, m, front);
      var t := RunFrom(Next(s, SetMax(m)), front);
      NextKeeps(t, a);
      NoWrap(t, a);
    }
  }

  /** And a lone attempt after it goes by it. */
  lemma NewMaximumDecides(s: State, m: nat, id: nat, failures: nat)
    requires id !in s.attempts
    ensures var t := Alone(Next(s, SetMax(m)), id, failures);
            && id in t.attempts
            && (t.attempts[id] == Inside <==> m == 0 || s.active < m)
  {
    AloneDecides(Next(s, SetMax(m)), id, failures);
  }
}

/** Index and constraint declarations (`src/native_service.rs`,
    `src/constraint_registry.rs`) and the rules they install in the engine
    (`drevo-core/src/native.rs`). */
module Constraints {
  import opened Prelude

  // ----- registered constraints and engine rules ----------------------------------------------

  datatype Kind = Unique | NotNull | NodeKey

  datatype Constraint = Constraint(name: string, onLabel: string, kind: Kind, properties: seq<string>)

  datatype Rule =
    | UniqueProperty(onLabel: string, property: string)
    | UniqueProperties(onLabel: string, properties: seq<string>)
    | PropertyExists(onLabel: string, property: string)
    | Key(onLabel: string, properties: seq<string>)

  /** `SchemaConstraint::constraint`: the rule a definition installs. */
  function RuleOf(c: Constraint): Rule {
    match c.kind
    case Unique =>
      if |c.properties| == 1 then UniqueProperty(c.onLabel, c.properties[0])
      else UniqueProperties(c.onLabel, c.properties)
    case NotNull =>
      if |c.properties| == 1 then PropertyExists(c.onLabel, c.properties[0])
      else Key(c.onLabel, c.properties)
    case NodeKey => Key(c.onLabel, c.properties)
  }

  predicate SameRule(a: Constraint, b: Constraint) {
    a.kind == b.kind && a.onLabel == b.onLabel && a.properties == b.properties
  }

  /** An `IS NOT NULL` over other than one property, and a node key over the same. */
  predicate Collide(a: Constraint, b: Constraint) {
    && a.onLabel == b.onLabel && a.properties == b.properties && |a.properties| != 1
    && ((a.kind == NotNull && b.kind == NodeKey) || (a.kind == NodeKey && b.kind == NotNull))
  }

  /** Different definitions install one rule exactly if they collide. */
  lemma RuleOfInjective(a: Constraint, b: Constraint)
    ensures RuleOf(a) == RuleOf(b) <==> SameRule(a, b) || Collide(a, b)
  {
    if |a.properties| == 1 && |b.properties| == 1 {
      assert a.properties == [a.properties[0]] && b.properties == [b.properties[0]];
    }
  }

  /** What the parser guarantees: `IS NOT NULL` is over one property. */
  predicate WellFormed(c: Constraint) {
    c.kind == NotNull ==> |c.properties| == 1
  }

  // ----- names ----------------------------------------------------------------------------------

  /** A path, text or vector index, by name. */
  datatype Index = Index(name: string, target: string)

  /** How many indexes are named `name`. */
  function IndexCount(s: seq<Index>, name: string): nat {
    if s == [] then 0 else IndexCount(s[..|s| - 1], name) + (if s[|s| - 1].name == name then 1 else 0)
  }

  function ConstraintCount(s: seq<Constraint>, name: string): nat {
    if s == [] then 0 else ConstraintCount(s[..|s| - 1], name) + (if s[|s| - 1].name == name then 1 else 0)
  }

  /** How often `name` is in use, over all registries. */
  function Uses(paths: seq<Index>, vectors: seq<Index>, constraints: seq<Constraint>, name: string): nat {
    IndexCount(paths, name) + IndexCount(vectors, name) + ConstraintCount(constraints, name)
  }

  ghost predicate NamesDistinct(paths: seq<Index>, vectors: seq<Index>, constraints: seq<Constraint>) {
    forall name :: Uses(paths, vectors, constraints, name) <= 1
  }

  /** The indexes not named `name`. */
  function WithoutIndex(s: seq<Index>, name: string): seq<Index> {
    if s == [] then []
    else
      var front := WithoutIndex(s[..|s| - 1], name);
      if s[|s| - 1].name == name then front else front + [s[|s| - 1]]
  }

  function FindIndex(s: seq<Index>, name: string): Option<Index> {
    if s == [] then None else if s[0].name == name then Some(s[0]) else FindIndex(s[1..], name)
  }

  /** The position of the constraint named `name`. */
  function Position(s: seq<Constraint>, name: string): (at: nat)
    ensures at <= |s| && (at < |s| ==> s[at].name == name)
    ensures forall i :: 0 <= i < at ==> s[i].name != name
  {
    if s == [] then 0
    else if s[0].name == name then 0
    else
      var at := 1 + Position(s[1..], name);
      assert forall i :: 1 <= i < at ==> s[i] == s[1..][i - 1];
      at
  }

  /** The first registered constraint that declares the same rule. */
  function Equivalent(s: seq<Constraint>, c: Constraint): (r: Option<Constraint>)
    ensures r.None? <==> forall d :: d in s ==> !SameRule(d, c)
  {
    if s == [] then None
    else if SameRule(s[0], c) then Some(s[0])
    else
      assert s == [s[0]] + s[1..];
      Equivalent(s[1..], c)
  }

  lemma IndexSnoc(s: seq<Index>, last: Index, name: string)
    ensures IndexCount(s + [last], name) == IndexCount(s, name) + (if last.name == name then 1 else 0)
    ensures WithoutIndex(s + [last], name)
         == if last.name == name then WithoutIndex(s, name) else WithoutIndex(s, name) + [last]
  {
    assert (s + [last])[..|s|] == s;
  }

  lemma ConstraintSnoc(s: seq<Constraint>, last: Constraint, name: string)
    ensures ConstraintCount(s + [last], name) == ConstraintCount(s, name) + (if last.name == name then 1 else 0)
  {
    assert (s + [last])[..|s|] == s;
  }

  lemma {:induction false} IndexFirst(s: seq<Index>, name: string)
    requires s != []
    ensures IndexCount(s, name) == (if s[0].name == name then 1 else 0) + IndexCount(s[1..], name)
    decreases |s|
  {
    if |s| == 1 {
      assert s[..0] == [] && s[1..] == [];
    } else {
      var front, last := s[..|s| - 1], s[|s| - 1];
      assert s == front + [last] && s[1..] == front[1..] + [last];
      IndexFirst(front, name);
      IndexSnoc(front, last, name);
      IndexSnoc(front[1..], last, name);
    }
  }

  lemma {:induction false} FindIndexIsName(s: seq<Index>, name: string)
    ensures FindIndex(s, name).Some? <==> IndexCount(s, name) > 0
    decreases |s|
  {
    if s != [] {
      IndexFirst(s, name);
      FindIndexIsName(s[1..], name);
    }
  }

  lemma {:induction false} WithoutCount(s: seq<Index>, name: string, n: string)
    ensures IndexCount(WithoutIndex(s, name), n) == if n == name then 0 else IndexCount(s, n)
    decreases |s|
  {
    if s != [] {
      var front, last := s[..|s| - 1], s[|s| - 1];
      WithoutCount(front, name, n);
      assert s == front + [last];
      WithoutCountSnoc(front, last, name, n);
    }
  }

  lemma WithoutCountSnoc(s: seq<Index>, last: Index, name: string, n: string)
    requires IndexCount(WithoutIndex(s, name), n) == if n == name then 0 else IndexCount(s, n)
    ensures IndexCount(WithoutIndex(s + [last], name), n) == if n == name then 0 else IndexCount(s + [last], n)
  {
    hide IndexCount, WithoutIndex;
    IndexSnoc(s, last, name);
    IndexSnoc(s, last, n);
    if last.name != name {
      IndexSnoc(WithoutIndex(s, name), last, n);
    }
  }

  lemma {:induction false} WithoutLength(s: seq<Index>, name: string)
    ensures |WithoutIndex(s, name)| < |s| <==> IndexCount(s, name) > 0
    ensures |WithoutIndex(s, name)| <= |s|
    ensures IndexCount(s, name) == 0 ==> WithoutIndex(s, name) == s
    decreases |s|
  {
    if s != [] {
      hide IndexCount, WithoutIndex;
      var front, last := s[..|s| - 1], s[|s| - 1];
      assert s == front + [last];
      WithoutLength(front, name);
      IndexSnoc(front, last, name);
    }
  }

  lemma {:induction false} PositionIsName(s: seq<Constraint>, name: string)
    ensures Position(s, name) < |s| <==> ConstraintCount(s, name) > 0
    decreases |s|
  {
    if s != [] {
      var front := s[..|s| - 1];
      PositionIsName(front, name);
      if Position(s, name) < |s| - 1 {
        assert front[Position(s, name)].name == name;
      }
      if Position(front, name) < |front| {
        assert s[Position(front, name)].name == name;
      }
    }
  }

  lemma {:induction false} ConstraintRemoved(s: seq<Constraint>, at: nat, name: string)
    requires at < |s|
    ensures ConstraintCount(s, name)
         == ConstraintCount(s[..at] + s[at + 1..], name) + (if s[at].name == name then 1 else 0)
    decreases |s|
  {
    hide ConstraintCount;
    var front, last := s[..|s| - 1], s[|s| - 1];
    assert s == front + [last];
    ConstraintSnoc(front, last, name);
    if at == |s| - 1 {
      assert s[..at] + s[at + 1..] == front;
    } else {
      var rest := front[..at] + front[at + 1..];
      ConstraintRemoved(front, at, name);
      assert s[..at] + s[at + 1..] == rest + [last];
      ConstraintSnoc(rest, last, name);
    }
  }

  /** Whether some registry has `name`. */
  predicate Taken(paths: seq<Index>, vectors: seq<Index>, constraints: seq<Constraint>, name: string) {
    || FindIndex(paths, name).Some? || FindIndex(vectors, name).Some?
    || Position(constraints, name) < |constraints|
  }

  lemma TakenIsInUse(paths: seq<Index>, vectors: seq<Index>, constraints: seq<Constraint>, name: string)
    ensures Taken(paths, vectors, constraints, name) <==> Uses(paths, vectors, constraints, name) > 0
  {
    hide FindIndex, IndexCount, ConstraintCount;
    FindIndexIsName(paths, name);
    FindIndexIsName(vectors, name);
    PositionIsName(constraints, name);
  }

  lemma AddPath(paths: seq<Index>, vectors: seq<Index>, constraints: seq<Constraint>, i: Index)
    requires NamesDistinct(paths, vectors, constraints) && Uses(paths, vectors, constraints, i.name) == 0
    ensures NamesDistinct(paths + [i], vectors, constraints)
  {
    hide IndexCount, ConstraintCount;
    forall name
      ensures Uses(paths + [i], vectors, constraints, name) <= 1
    {
      assert Uses(paths, vectors, constraints, name) <= 1;
      IndexSnoc(paths, i, name);
    }
  }

  lemma AddVector(paths: seq<Index>, vectors: seq<Index>, constraints: seq<Constraint>, i: Index)
    requires NamesDistinct(paths, vectors, constraints) && Uses(paths, vectors, constraints, i.name) == 0
    ensures NamesDistinct(paths, vectors + [i], constraints)
  {
    hide IndexCount, ConstraintCount;
    forall name
      ensures Uses(paths, vectors + [i], constraints, name) <= 1
    {
      assert Uses(paths, vectors, constraints, name) <= 1;
      IndexSnoc(vectors, i, name);
    }
  }

  lemma AddConstraint(paths: seq<Index>, vectors: seq<Index>, constraints: seq<Constraint>, c: Constraint)
    requires NamesDistinct(paths, vectors, constraints) && Uses(paths, vectors, constraints, c.name) == 0
    ensures NamesDistinct(paths, vectors, constraints + [c])
  {
    hide IndexCount, ConstraintCount;
    forall name
      ensures Uses(paths, vectors, constraints + [c], name) <= 1
    {
      assert Uses(paths, vectors, constraints, name) <= 1;
      ConstraintSnoc(constraints, c, name);
    }
  }

  lemma DropIndexNames(paths: seq<Index>, vectors: seq<Index>, constraints: seq<Constraint>, name: string)
    requires NamesDistinct(paths, vectors, constraints)
    ensures NamesDistinct(WithoutIndex(paths, name), WithoutIndex(vectors, name), constraints)
  {
    hide IndexCount, WithoutIndex, ConstraintCount;
    forall n
      ensures Uses(WithoutIndex(paths, name), WithoutIndex(vectors, name), constraints, n) <= 1
    {
      assert Uses(paths, vectors, constraints, n) <= 1;
      WithoutCount(paths, name, n);
      WithoutCount(vectors, name, n);
    }
  }

  lemma DropConstraintNames(paths: seq<Index>, vectors: seq<Index>, constraints: seq<Constraint>, at: nat)
    requires NamesDistinct(paths, vectors, constraints) && at < |constraints|
    ensures NamesDistinct(paths, vectors, constraints[..at] + constraints[at + 1..])
  {
    hide IndexCount, ConstraintCount;
    var rest := constraints[..at] + constraints[at + 1..];
    forall n
      ensures Uses(paths, vectors, rest, n) <= 1
    {
      assert Uses(paths, vectors, constraints, n) <= 1;
      ConstraintRemoved(constraints, at, n);
    }
  }

  lemma NameOnce(paths: seq<Index>, vectors: seq<Index>, constraints: seq<Constraint>, name: string)
    requires NamesDistinct(paths, vectors, constraints)
    ensures Uses(paths, vectors, constraints, name) <= 1
  {
  }

  // ----- rules ------------------------------------------------------------------------------------

  /** No definition is registered twice. */
  ghost predicate NoTwins(constraints: seq<Constraint>) {
    forall i, j :: 0 <= i < j < |constraints| ==> !SameRule(constraints[i], constraints[j])
  }

  /** The engine enforces nothing but what is registered. */
  ghost predicate OnlyRegistered(rules: set<Rule>, constraints: seq<Constraint>) {
    forall r :: r in rules ==> exists c :: c in constraints && RuleOf(c) == r
  }

  /** The engine enforces everything registered. */
  ghost predicate AllEnforced(rules: set<Rule>, constraints: seq<Constraint>) {
    forall c :: c in constraints ==> RuleOf(c) in rules
  }

  ghost predicate AllWellFormed(constraints: seq<Constraint>) {
    forall c :: c in constraints ==> WellFormed(c)
  }

  lemma RegisterKeeps(rules: set<Rule>, constraints: seq<Constraint>, c: Constraint)
    requires NoTwins(constraints) && OnlyRegistered(rules, constraints)
    requires forall d :: d in constraints ==> !SameRule(d, c)
    ensures NoTwins(constraints + [c]) && OnlyRegistered(rules + {RuleOf(c)}, constraints + [c])
    ensures AllEnforced(rules, constraints) ==> AllEnforced(rules + {RuleOf(c)}, constraints + [c])
  {
    forall r | r in rules + {RuleOf(c)}
      ensures exists d :: d in constraints + [c] && RuleOf(d) == r
    {
      if r in rules {
        var d :| d in constraints && RuleOf(d) == r;
        assert d in constraints + [c];
      } else {
        assert c in constraints + [c];
      }
    }
  }

  /** Dropping a constraint leaves every other one enforced exactly if none collides with it. */
  lemma DropKeeps(rules: set<Rule>, constraints: seq<Constraint>, at: nat)
    requires at < |constraints| && NoTwins(constraints) && OnlyRegistered(rules, constraints)
    ensures var c, rest := constraints[at], constraints[..at] + constraints[at + 1..];
            && NoTwins(rest) && OnlyRegistered(rules - {RuleOf(c)}, rest)
            && (AllEnforced(rules, constraints) ==>
                  (AllEnforced(rules - {RuleOf(c)}, rest) <==> forall d :: d in rest ==> !Collide(c, d)))
  {
    var c, rest := constraints[at], constraints[..at] + constraints[at + 1..];
    forall i | 0 <= i < |rest|
      ensures rest[i] in constraints && !SameRule(c, rest[i])
      ensures RuleOf(rest[i]) == RuleOf(c) <==> Collide(c, rest[i])
    {
      assert rest[i] == constraints[if i < at then i else i + 1];
      RuleOfInjective(c, rest[i]);
    }
    forall r | r in rules - {RuleOf(c)}
      ensures exists d :: d in rest && RuleOf(d) == r
    {
      var d :| d in constraints && RuleOf(d) == r;
      var k :| 0 <= k < |constraints| && constraints[k] == d;
      assert rest[if k < at then k else k - 1] == d;
    }
  }

  /** Well-formed constraints never collide. */
  lemma WellFormedApart(a: Constraint, b: Constraint)
    requires WellFormed(a) && WellFormed(b)
    ensures !Collide(a, b)
  {
  }

  lemma DropSound(constraints: seq<Constraint>, at: nat)
    requires at < |constraints|
    ensures var c, rest := constraints[at], constraints[..at] + constraints[at + 1..];
            AllWellFormed(constraints) ==> AllWellFormed(rest) && forall d :: d in rest ==> !Collide(c, d)
  {
    var c, rest := constraints[at], constraints[..at] + constraints[at + 1..];
    if AllWellFormed(constraints) {
      forall d | d in rest
        ensures WellFormed(d) && !Collide(c, d)
      {
        assert d in constraints;
        WellFormedApart(c, d);
      }
    }
  }

  /** What the source comment calls a hand-edited definition: dropping it disables a node key. */
  lemma DropDisablesNodeKey()
    ensures var a := Constraint("a", "User", NotNull, ["x", "y"]);
            var b := Constraint("b", "User", NodeKey, ["x", "y"]);
            && !SameRule(a, b)
            && AllEnforced({RuleOf(a)}, [a, b])
            && !AllEnforced({RuleOf(a)} - {RuleOf(a)}, [b])
  {
    var b := Constraint("b", "User", NodeKey, ["x", "y"]);
    assert b in [b];
  }

  // ----- the service ----------------------------------------------------------------------------------

  datatype Error = AlreadyExists | EquivalentExists | Violated | NotFound

  type Answer = Result<bool, Error>

  class Schema {
    var paths: seq<Index>
    var vectors: seq<Index>
    var constraints: seq<Constraint>
    /** The engine's rules. */
    var rules: set<Rule>

    ghost predicate Valid()
      reads this
    {
      && NamesDistinct(paths, vectors, constraints)
      && NoTwins(constraints) && OnlyRegistered(rules, constraints)
    }

    /** The rules are exactly those of the registered constraints, and stay so. */
    ghost predicate Sound()
      reads this
    {
      AllEnforced(rules, constraints) && AllWellFormed(constraints)
    }

    constructor ()
      ensures Valid() && Sound()
    {
      paths, vectors, constraints, rules := [], [], [], {};
    }

    method PathIndexCreate(name: string, target: string, ifNotExists: bool) returns (r: Answer)
      requires Valid()
      modifies this`paths
      ensures Valid()
      ensures var taken := Uses(old(paths), vectors, constraints, name) > 0;
              && paths == (if taken then old(paths) else old(paths) + [Index(name, target)])
              && (r.Ok? <==> !taken || ifNotExists) && (r.Err? ==> r.error == AlreadyExists)
    {
      hide Uses, NamesDistinct, Taken, NoTwins, OnlyRegistered;
      TakenIsInUse(paths, vectors, constraints, name);
      if Taken(paths, vectors, constraints, name) {
        return if ifNotExists then Ok(true) else Err(AlreadyExists);
      }
      AddPath(paths, vectors, constraints, Index(name, target));
      paths := paths + [Index(name, target)];
      r := Ok(true);
    }

    /** A name taken by another kind is refused even with `IF NOT EXISTS`. */
    method VectorIndexCreate(name: string, target: string, ifNotExists: bool) returns (r: Answer)
      requires Valid()
      modifies this`vectors
      ensures Valid()
      ensures var taken := Uses(paths, old(vectors), constraints, name) > 0;
              && vectors == (if taken then old(vectors) else old(vectors) + [Index(name, target)])
              && (r.Ok? <==> !taken || (ifNotExists && IndexCount(old(vectors), name) > 0))
              && (r.Err? ==> r.error == AlreadyExists)
    {
      hide NamesDistinct, IndexCount, ConstraintCount, FindIndex, NoTwins, OnlyRegistered;
      FindIndexIsName(paths, name);
      FindIndexIsName(vectors, name);
      PositionIsName(constraints, name);
      NameOnce(paths, vectors, constraints, name);
      if FindIndex(paths, name).Some? || Position(constraints, name) < |constraints| {
        return Err(AlreadyExists);
      }
      if FindIndex(vectors, name).Some? {
        return if ifNotExists then Ok(true) else Err(AlreadyExists);
      }
      AddVector(paths, vectors, constraints, Index(name, target));
      vectors := vectors + [Index(name, target)];
      r := Ok(true);
    }

    /** Drop the path, text or vector index named `name`; no other declaration is touched. */
    method IndexDrop(name: string, ifExists: bool) returns (r: Answer)
      requires Valid()
      modifies this`paths, this`vectors
      ensures Valid()
      ensures paths == WithoutIndex(old(paths), name) && vectors == WithoutIndex(old(vectors), name)
      ensures IndexCount(paths, name) == 0 && IndexCount(vectors, name) == 0
      ensures var found := IndexCount(old(paths), name) > 0 || IndexCount(old(vectors), name) > 0;
              (r.Ok? <==> found || ifExists) && (r.Err? ==> r.error == NotFound)
    {
      hide NamesDistinct, IndexCount, ConstraintCount, FindIndex, WithoutIndex, NoTwins, OnlyRegistered;
      WithoutLength(paths, name);
      WithoutLength(vectors, name);
      WithoutCount(paths, name, name);
      WithoutCount(vectors, name, name);
      DropIndexNames(paths, vectors, constraints, name);
      FindIndexIsName(vectors, name);
      NameOnce(paths, vectors, constraints, name);
      var kept := WithoutIndex(paths, name);
      if |kept| < |paths| {
        paths := kept;
        return Ok(true);
      }
      if FindIndex(vectors, name).Some? {
        vectors := WithoutIndex(vectors, name);
        return Ok(true);
      }
      r := if ifExists then Ok(true) else Err(NotFound);
    }

    /** Declare `c`; `violated` tells whether the data breaks a rule not installed yet. */
    method ConstraintCreate(c: Constraint, ifNotExists: bool, violated: bool) returns (r: Answer)
      requires Valid()
      modifies this`constraints, this`rules
      ensures Valid()
      ensures old(Sound()) && WellFormed(c) ==> Sound()
      ensures old(AllEnforced(rules, constraints)) ==> AllEnforced(rules, constraints)
      ensures var taken := Uses(paths, vectors, old(constraints), c.name) > 0;
              var twin := exists d :: d in old(constraints) && SameRule(d, c);
              var refused := !taken && !twin && violated && RuleOf(c) !in old(rules);
              && constraints == (if taken || twin || refused then old(constraints) else old(constraints) + [c])
              && rules == (if taken || twin || refused then old(rules) else old(rules) + {RuleOf(c)})
              && r == (if refused then Err(Violated)
                       else if ifNotExists || !(taken || twin) then Ok(true)
                       else Err(if taken then AlreadyExists else EquivalentExists))
    {
      hide Uses, NamesDistinct, Taken, NoTwins, OnlyRegistered, AllEnforced, RuleOf, SameRule;
      TakenIsInUse(paths, vectors, constraints, c.name);
      if Taken(paths, vectors, constraints, c.name) {
        return if ifNotExists then Ok(true) else Err(AlreadyExists);
      }
      if Equivalent(constraints, c).Some? {
        return if ifNotExists then Ok(true) else Err(EquivalentExists);
      }
      if RuleOf(c) !in rules && violated {
        return Err(Violated);
      }
      RegisterKeeps(rules, constraints, c);
      AddConstraint(paths, vectors, constraints, c);
      rules := rules + {RuleOf(c)};
      constraints := constraints + [c];
      r := Ok(true);
    }

    /** Drop the constraint named `name`. Where all were enforced, all others still are exactly
        if none collides with it, as none does among well-formed ones. */
    method ConstraintDrop(name: string, ifExists: bool) returns (r: Answer)
      requires Valid()
      modifies this`constraints, this`rules
      ensures Valid()
      ensures old(Sound()) ==> Sound()
      ensures var at := Position(old(constraints), name);
              if at < |old(constraints)| then
                && r == Ok(true)
                && constraints == old(constraints)[..at] + old(constraints)[at + 1..]
                && rules == old(rules) - {RuleOf(old(constraints)[at])}
                && (old(AllEnforced(rules, constraints)) ==>
                      (AllEnforced(rules, constraints) <==>
                       forall d :: d in constraints ==> !Collide(old(constraints)[at], d)))
              else
                && r == (if ifExists then Ok(true) else Err(NotFound))
                && constraints == old(constraints) && rules == old(rules)
    {
      hide Uses, NamesDistinct, NoTwins, OnlyRegistered, AllEnforced, RuleOf, Collide, WellFormed;
      var at := Position(constraints, name);
      if at == |constraints| {
        return if ifExists then Ok(true) else Err(NotFound);
      }
      var c := constraints[at];
      DropKeeps(rules, constraints, at);
      DropConstraintNames(paths, vectors, constraints, at);
      DropSound(constraints, at);
      constraints := constraints[..at] + constraints[at + 1..];
      rules := rules - {RuleOf(c)};
      r := Ok(true);
    }
  }

  /** In a sound schema the rules are exactly the image of the registered constraints, one
      rule to each. */
  lemma RulesAreImage(rules: set<Rule>, constraints: seq<Constraint>, i: nat, j: nat)
    requires NoTwins(constraints) && OnlyRegistered(rules, constraints)
    requires AllEnforced(rules, constraints) && AllWellFormed(constraints)
    requires i < |constraints| && j < |constraints| && i != j
    ensures rules == set c | c in constraints :: RuleOf(c)
    ensures RuleOf(constraints[i]) != RuleOf(constraints[j])
  {
    RuleOfInjective(constraints[i], constraints[j]);
    WellFormedApart(constraints[i], constraints[j]);
    assert !SameRule(constraints[if i < j then i else j], constraints[if i < j then j else i]);
  }
}

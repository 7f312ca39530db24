/** What a declared constraint means for the nodes of a graph, and what the engine's rule for it
    allows (`validate_constraints` and `check_exists`, `drevo-core/src/native.rs`). */
module ConstraintRules {
  import opened Prelude
  import opened Constraints

  /** A node: its labels, and the comparable value of each property it has one for. */
  datatype Node = Node(labels: set<string>, values: map<string, string>)

  // ----- the engine -----------------------------------------------------------------------------

  /** The properties a rule requires, and those whose combination it keeps unique. */
  function Required(r: Rule): Option<seq<string>> {
    match r
    case PropertyExists(_, property) => Some([property])
    case Key(_, properties) => Some(properties)
    case _ => None
  }

  function UniqueTuple(r: Rule): Option<seq<string>> {
    match r
    case UniqueProperty(_, property) => Some([property])
    case UniqueProperties(_, properties) => Some(properties)
    case Key(_, properties) => Some(properties)
    case PropertyExists(_, _) => None
  }

  /** `tuple_key`: the values of all the properties, if the node has them all. */
  function TupleKey(n: Node, properties: seq<string>): Option<seq<string>> {
    if forall i :: 0 <= i < |properties| ==> properties[i] in n.values then
      Some(seq(|properties|, i requires 0 <= i < |properties| => n.values[properties[i]]))
    else None
  }

  ghost predicate Allows(r: Rule, nodes: seq<Node>) {
    && (Required(r).Some? ==>
          forall i :: 0 <= i < |nodes| && r.onLabel in nodes[i].labels ==>
            TupleKey(nodes[i], Required(r).value).Some?)
    && (UniqueTuple(r).Some? ==>
          forall i, j :: 0 <= i < j < |nodes| && r.onLabel in nodes[i].labels && r.onLabel in nodes[j].labels ==>
            var a, b := TupleKey(nodes[i], UniqueTuple(r).value), TupleKey(nodes[j], UniqueTuple(r).value);
            a.Some? && b.Some? ==> a != b)
  }

  // ----- the definitions ------------------------------------------------------------------------------

  /** Every node with the label has the properties. */
  ghost predicate AllHave(onLabel: string, properties: seq<string>, nodes: seq<Node>) {
    forall i, k :: 0 <= i < |nodes| && onLabel in nodes[i].labels && 0 <= k < |properties| ==>
      properties[k] in nodes[i].values
  }

  /** The two nodes have the properties and agree on all of them. */
  predicate Agree(a: Node, b: Node, properties: seq<string>) {
    forall k :: 0 <= k < |properties| ==>
      properties[k] in a.values && properties[k] in b.values && a.values[properties[k]] == b.values[properties[k]]
  }

  /** No two nodes with the label agree on the properties. */
  ghost predicate NoneAgree(onLabel: string, properties: seq<string>, nodes: seq<Node>) {
    forall i, j :: 0 <= i < j < |nodes| && onLabel in nodes[i].labels && onLabel in nodes[j].labels ==>
      !Agree(nodes[i], nodes[j], properties)
  }

  ghost predicate Means(c: Constraint, nodes: seq<Node>) {
    match c.kind
    case Unique => NoneAgree(c.onLabel, c.properties, nodes)
    case NotNull => AllHave(c.onLabel, c.properties, nodes)
    case NodeKey => AllHave(c.onLabel, c.properties, nodes) && NoneAgree(c.onLabel, c.properties, nodes)
  }

  lemma TuplesAgree(a: Node, b: Node, properties: seq<string>)
    ensures var x, y := TupleKey(a, properties), TupleKey(b, properties);
            Agree(a, b, properties) <==> x.Some? && y.Some? && x == y
  {
    var x, y := TupleKey(a, properties), TupleKey(b, properties);
    if Agree(a, b, properties) {
      assert x.Some? && y.Some? && x.value == y.value;
    }
    if x.Some? && y.Some? && x == y {
      forall k | 0 <= k < |properties|
        ensures a.values[properties[k]] == b.values[properties[k]]
      {
        assert x.value[k] == y.value[k];
      }
    }
  }

  lemma RequiredMeans(onLabel: string, properties: seq<string>, nodes: seq<Node>)
    ensures (forall i :: 0 <= i < |nodes| && onLabel in nodes[i].labels ==> TupleKey(nodes[i], properties).Some?)
       <==> AllHave(onLabel, properties, nodes)
  {
  }

  lemma UniqueMeans(onLabel: string, properties: seq<string>, nodes: seq<Node>)
    ensures (forall i, j :: 0 <= i < j < |nodes| && onLabel in nodes[i].labels && onLabel in nodes[j].labels ==>
               var a, b := TupleKey(nodes[i], properties), TupleKey(nodes[j], properties);
               a.Some? && b.Some? ==> a != b)
       <==> NoneAgree(onLabel, properties, nodes)
  {
    forall i, j | 0 <= i < j < |nodes|
      ensures var a, b := TupleKey(nodes[i], properties), TupleKey(nodes[j], properties);
              Agree(nodes[i], nodes[j], properties) <==> a.Some? && b.Some? && a == b
    {
      TuplesAgree(nodes[i], nodes[j], properties);
    }
    hide Agree, TupleKey;
  }

  /** The definition a rule comes down to: an `IS NOT NULL` over other than one property is
      enforced as a node key. */
  function EnforcedAs(c: Constraint): Constraint {
    if c.kind == NotNull && |c.properties| != 1 then c.(kind := NodeKey) else c
  }

  /** For every graph, the rule a definition installs allows exactly what it is enforced as
      means; for one the parser makes, exactly what it means. */
  lemma RuleEnforces(c: Constraint, nodes: seq<Node>)
    ensures Allows(RuleOf(c), nodes) <==> Means(EnforcedAs(c), nodes)
    ensures WellFormed(c) ==> (Allows(RuleOf(c), nodes) <==> Means(c, nodes))
  {
    RequiredMeans(c.onLabel, c.properties, nodes);
    UniqueMeans(c.onLabel, c.properties, nodes);
    if |c.properties| == 1 {
      assert [c.properties[0]] == c.properties;
    }
    assert RuleOf(c).onLabel == c.onLabel;
    hide TupleKey, AllHave, NoneAgree;
  }

  /** In a sound schema the engine allows a graph exactly if it keeps every constraint. */
  lemma SoundSchemaEnforces(rules: set<Rule>, constraints: seq<Constraint>, nodes: seq<Node>)
    requires OnlyRegistered(rules, constraints) && AllEnforced(rules, constraints) && AllWellFormed(constraints)
    ensures (forall r :: r in rules ==> Allows(r, nodes)) <==> (forall c :: c in constraints ==> Means(c, nodes))
  {
    forall c | c in constraints
      ensures Allows(RuleOf(c), nodes) <==> Means(c, nodes)
    {
      RuleEnforces(c, nodes);
    }
    hide Allows, Means, RuleOf, WellFormed;
    if forall c :: c in constraints ==> Means(c, nodes) {
      forall r | r in rules
        ensures Allows(r, nodes)
      {
        var c :| c in constraints && RuleOf(c) == r;
      }
    }
  }
}

/** Relationship tuples, and what they let a subject derive: the meaning that
    `packages/authz/src/in-memory.ts` has to compute.  The rule table is a parameter, so
    stores and schemas with cycles are covered.  */
module Relations {

  /** A relationship; `subjectRelation == ""` when the subject is a plain object. */
  datatype Tuple = Tuple(resourceType: string, resourceId: string, relation: string,
                         subjectType: string, subjectId: string, subjectRelation: string)

  datatype Rule = Rel(rel: string) | Arrow(arrow: string, target: string)

  /** (resource type, permission name) -> the union that defines the permission */
  type Rules = map<(string, string), seq<Rule>>

  datatype Subject = Subject(stype: string, id: string)

  /** A permission or relation on one object: what `resolve` answers, and the key of its `seen` set. */
  datatype Key = Key(resourceType: string, resourceId: string, name: string)

  predicate On(t: Tuple, resourceType: string, resourceId: string, relation: string) {
    t.resourceType == resourceType && t.resourceId == resourceId && t.relation == relation
  }

  function SubjectKey(t: Tuple, name: string): Key {
    Key(t.subjectType, t.subjectId, name)
  }

  /** The tuple grants its relation to `s`, given that `s` has everything in `granted`. */
  ghost predicate Grants(s: Subject, granted: iset<Key>, t: Tuple) {
    if t.subjectRelation == "" then t.subjectType == s.stype && t.subjectId == s.id
    else SubjectKey(t, t.subjectRelation) in granted
  }

  ghost predicate RelationGiven(ts: seq<Tuple>, s: Subject, granted: iset<Key>, resourceType: string,
      resourceId: string, relation: string) {
    exists t :: t in ts && On(t, resourceType, resourceId, relation) && Grants(s, granted, t)
  }

  ghost predicate RuleGiven(ts: seq<Tuple>, s: Subject, granted: iset<Key>, resourceType: string, resourceId: string,
      rule: Rule) {
    match rule
    case Rel(rel) => RelationGiven(ts, s, granted, resourceType, resourceId, rel)
    case Arrow(arrow, target) =>
      exists t :: t in ts && On(t, resourceType, resourceId, arrow) && SubjectKey(t, target) in granted
  }

  /** One derivation step. */
  ghost predicate Given(ts: seq<Tuple>, rules: Rules, s: Subject, granted: iset<Key>, n: Key) {
    if (n.resourceType, n.name) in rules then
      exists rule :: rule in rules[(n.resourceType, n.name)]
        && RuleGiven(ts, s, granted, n.resourceType, n.resourceId, rule)
    else
      RelationGiven(ts, s, granted, n.resourceType, n.resourceId, n.name)
  }

  /** What is derivable in at most `k` steps. */
  ghost function Stage(ts: seq<Tuple>, rules: Rules, s: Subject, k: nat): iset<Key> {
    if k == 0 then iset{}
    else
      var granted := Stage(ts, rules, s, k - 1);
      iset n | Given(ts, rules, s, granted, n)
  }

  ghost function Derivable(ts: seq<Tuple>, rules: Rules, s: Subject): iset<Key> {
    iset n, k: nat | n in Stage(ts, rules, s, k) :: n
  }

  lemma GivenMonotone(ts: seq<Tuple>, rules: Rules, s: Subject, small: iset<Key>, large: iset<Key>, n: Key)
    requires small <= large && Given(ts, rules, s, small, n)
    ensures Given(ts, rules, s, large, n)
  {
    if (n.resourceType, n.name) in rules {
      var rule :| rule in rules[(n.resourceType, n.name)]
        && RuleGiven(ts, s, small, n.resourceType, n.resourceId, rule);
      assert RuleGiven(ts, s, large, n.resourceType, n.resourceId, rule);
    }
  }

  lemma {:induction false} StageInClosed(ts: seq<Tuple>, rules: Rules, s: Subject, k: nat, closed: iset<Key>)
    requires forall n :: Given(ts, rules, s, closed, n) ==> n in closed
    ensures Stage(ts, rules, s, k) <= closed
  {
    if k > 0 {
      StageInClosed(ts, rules, s, k - 1, closed);
      forall n | n in Stage(ts, rules, s, k) ensures n in closed {
        GivenMonotone(ts, rules, s, Stage(ts, rules, s, k - 1), closed, n);
      }
    }
  }

  /** `Derivable` is contained in everything closed under the rules. */
  lemma {:induction false} DerivableIsLeast(ts: seq<Tuple>, rules: Rules, s: Subject, closed: iset<Key>)
    requires forall n :: Given(ts, rules, s, closed, n) ==> n in closed
    ensures Derivable(ts, rules, s) <= closed
  {
    forall k: nat ensures Stage(ts, rules, s, k) <= closed {
      StageInClosed(ts, rules, s, k, closed);
    }
  }

  /** A step needs only one premise, so it needs only one stage. */
  lemma GivenByOne(ts: seq<Tuple>, rules: Rules, s: Subject, granted: iset<Key>, n: Key) returns (m: Key)
    requires Given(ts, rules, s, granted, n)
    ensures Given(ts, rules, s, iset{m}, n) && (m in granted || Given(ts, rules, s, iset{}, n))
  {
    var t: Tuple;
    if (n.resourceType, n.name) in rules {
      var rule :| rule in rules[(n.resourceType, n.name)]
        && RuleGiven(ts, s, granted, n.resourceType, n.resourceId, rule);
      match rule {
        case Rel(rel) =>
          t :| t in ts && On(t, n.resourceType, n.resourceId, rel) && Grants(s, granted, t);
          m := SubjectKey(t, t.subjectRelation);
          assert Grants(s, iset{m}, t) && (m in granted || Grants(s, iset{}, t));
        case Arrow(arrow, target) =>
          t :| t in ts && On(t, n.resourceType, n.resourceId, arrow) && SubjectKey(t, target) in granted;
          m := SubjectKey(t, target);
      }
      assert RuleGiven(ts, s, iset{m}, n.resourceType, n.resourceId, rule);
      if m !in granted {
        assert RuleGiven(ts, s, iset{}, n.resourceType, n.resourceId, rule);
      }
    } else {
      t :| t in ts && On(t, n.resourceType, n.resourceId, n.name) && Grants(s, granted, t);
      m := SubjectKey(t, t.subjectRelation);
      assert Grants(s, iset{m}, t) && (m in granted || Grants(s, iset{}, t));
    }
  }

  /** `Derivable` is a fixed point of the rules; with `DerivableIsLeast`, the least one. */
  lemma {:induction false} DerivableIsFixedPoint(ts: seq<Tuple>, rules: Rules, s: Subject, n: Key)
    ensures n in Derivable(ts, rules, s) <==> Given(ts, rules, s, Derivable(ts, rules, s), n)
  {
    var D := Derivable(ts, rules, s);
    if n in D {
      var k: nat :| n in Stage(ts, rules, s, k);
      assert k > 0;
      GivenMonotone(ts, rules, s, Stage(ts, rules, s, k - 1), D, n);
    }
    if Given(ts, rules, s, D, n) {
      var m := GivenByOne(ts, rules, s, D, n);
      if m in D {
        var k: nat :| m in Stage(ts, rules, s, k);
        GivenMonotone(ts, rules, s, iset{m}, Stage(ts, rules, s, k), n);
        assert n in Stage(ts, rules, s, k + 1);
      } else {
        GivenMonotone(ts, rules, s, iset{}, Stage(ts, rules, s, 0), n);
        assert n in Stage(ts, rules, s, 1);
      }
    }
  }

  // ---------------------------------------------------------------------------
  // The rules, one by one
  // ---------------------------------------------------------------------------

  /** `closed` has whatever the tuples and the rule table grant one step at a time:
      a relation to the subject that a tuple names; a relation to everyone who has the relation that a tuple
      names in its place; a permission to whoever has one of the relations of its union; and a permission to
      whoever has the target permission on what an arrow points to.  A name in the rule table is a
      permission, any other a relation. */
  ghost predicate Closed(ts: seq<Tuple>, rules: Rules, s: Subject, closed: iset<Key>) {
    forall t, name :: t in ts && Passes(rules, Key(t.resourceType, t.resourceId, name), t) ==>
      (t.subjectRelation == "" && t.subjectType == s.stype && t.subjectId == s.id ==>
        Key(t.resourceType, t.resourceId, name) in closed)
      && (t.subjectRelation != "" && Key(t.subjectType, t.subjectId, t.subjectRelation) in closed ==>
        Key(t.resourceType, t.resourceId, name) in closed)
  }

  /** The tuple's relation is `n` itself or, where `n` is a permission, in its union. */
  ghost predicate Passes(rules: Rules, n: Key, t: Tuple) {
    if (n.resourceType, n.name) in rules then Rel(t.relation) in rules[(n.resourceType, n.name)]
    else t.relation == n.name
  }

  ghost predicate ClosedUnderArrows(ts: seq<Tuple>, rules: Rules, closed: iset<Key>) {
    forall t, name, target ::
      (t in ts && (t.resourceType, name) in rules && Arrow(t.relation, target) in rules[(t.resourceType, name)]
       && Key(t.subjectType, t.subjectId, target) in closed) ==>
        Key(t.resourceType, t.resourceId, name) in closed
  }

  lemma ClosedIsGiven(ts: seq<Tuple>, rules: Rules, s: Subject, closed: iset<Key>)
    ensures Closed(ts, rules, s, closed) && ClosedUnderArrows(ts, rules, closed) <==>
      forall n :: Given(ts, rules, s, closed, n) ==> n in closed
  {
    if Closed(ts, rules, s, closed) && ClosedUnderArrows(ts, rules, closed) {
      forall n | Given(ts, rules, s, closed, n) ensures n in closed {
        ClosedTakesGiven(ts, rules, s, closed, n);
      }
    }
    if forall n :: Given(ts, rules, s, closed, n) ==> n in closed {
      GivenIsClosed(ts, rules, s, closed);
    }
  }

  lemma ClosedTakesGiven(ts: seq<Tuple>, rules: Rules, s: Subject, closed: iset<Key>, n: Key)
    requires Closed(ts, rules, s, closed) && ClosedUnderArrows(ts, rules, closed) && Given(ts, rules, s, closed, n)
    ensures n in closed
  {
    if (n.resourceType, n.name) in rules {
      var rule :| rule in rules[(n.resourceType, n.name)]
        && RuleGiven(ts, s, closed, n.resourceType, n.resourceId, rule);
      match rule {
        case Rel(rel) =>
          var t :| t in ts && On(t, n.resourceType, n.resourceId, rel) && Grants(s, closed, t);
          assert Passes(rules, Key(t.resourceType, t.resourceId, n.name), t);
        case Arrow(arrow, target) =>
          var t :| t in ts && On(t, n.resourceType, n.resourceId, arrow) && SubjectKey(t, target) in closed;
          assert Arrow(t.relation, target) in rules[(t.resourceType, n.name)];
      }
    } else {
      var t :| t in ts && On(t, n.resourceType, n.resourceId, n.name) && Grants(s, closed, t);
      assert Passes(rules, Key(t.resourceType, t.resourceId, n.name), t);
    }
  }

  lemma GivenIsClosed(ts: seq<Tuple>, rules: Rules, s: Subject, closed: iset<Key>)
    requires forall n :: Given(ts, rules, s, closed, n) ==> n in closed
    ensures Closed(ts, rules, s, closed) && ClosedUnderArrows(ts, rules, closed)
  {
    forall t, name | t in ts && Passes(rules, Key(t.resourceType, t.resourceId, name), t) && Grants(s, closed, t)
      ensures Key(t.resourceType, t.resourceId, name) in closed
    {
      var n := Key(t.resourceType, t.resourceId, name);
      assert RelationGiven(ts, s, closed, n.resourceType, n.resourceId, t.relation);
      if (n.resourceType, n.name) in rules {
        assert RuleGiven(ts, s, closed, n.resourceType, n.resourceId, Rel(t.relation));
      }
      assert Given(ts, rules, s, closed, n);
    }
    forall t, name, target |
      && t in ts && (t.resourceType, name) in rules && Arrow(t.relation, target) in rules[(t.resourceType, name)]
      && Key(t.subjectType, t.subjectId, target) in closed
      ensures Key(t.resourceType, t.resourceId, name) in closed
    {
      assert On(t, t.resourceType, t.resourceId, t.relation) && SubjectKey(t, target) in closed;
      assert RuleGiven(ts, s, closed, t.resourceType, t.resourceId, Arrow(t.relation, target));
      assert Given(ts, rules, s, closed, Key(t.resourceType, t.resourceId, name));
    }
  }

  /** What is derivable is the smallest set closed under these rules. */
  lemma {:induction false} DerivableIsSmallestClosed(ts: seq<Tuple>, rules: Rules, s: Subject)
    ensures Closed(ts, rules, s, Derivable(ts, rules, s)) && ClosedUnderArrows(ts, rules, Derivable(ts, rules, s))
    ensures forall closed :: Closed(ts, rules, s, closed) && ClosedUnderArrows(ts, rules, closed) ==>
      Derivable(ts, rules, s) <= closed
  {
    var D := Derivable(ts, rules, s);
    forall n ensures Given(ts, rules, s, D, n) ==> n in D {
      DerivableIsFixedPoint(ts, rules, s, n);
    }
    ClosedIsGiven(ts, rules, s, D);
    forall closed | Closed(ts, rules, s, closed) && ClosedUnderArrows(ts, rules, closed) ensures D <= closed {
      ClosedIsGiven(ts, rules, s, closed);
      DerivableIsLeast(ts, rules, s, closed);
    }
  }
}

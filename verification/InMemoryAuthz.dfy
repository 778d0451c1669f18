/** `InMemoryAuthzClient` of `packages/authz/src/in-memory.ts`. */
module InMemoryAuthz {
  import opened Options
  import opened Relations
  import opened Sorting

  /** The `Set<string>` that one `check` shares over its whole recursion. */
  class Seen {
    var keys: set<Key>

    constructor ()
      ensures keys == {}
    {
      keys := {};
    }
  }

  /** Everything not visited yet: the optimistic assumption under which a `false` is recorded. */
  ghost function Unseen(keys: set<Key>): iset<Key> {
    iset n: Key | n !in keys
  }

  /** `n` is not derivable even if every unvisited key were. */
  ghost predicate Refuted(ts: seq<Tuple>, rules: Rules, s: Subject, keys: set<Key>, n: Key) {
    !Given(ts, rules, s, Unseen(keys), n)
  }

  lemma RefutedStays(ts: seq<Tuple>, rules: Rules, s: Subject, keys: set<Key>, more: set<Key>, n: Key)
    requires keys <= more && Refuted(ts, rules, s, keys, n)
    ensures Refuted(ts, rules, s, more, n)
  {
    if Given(ts, rules, s, Unseen(more), n) {
      GivenMonotone(ts, rules, s, Unseen(more), Unseen(keys), n);
    }
  }

  /** A completed unsuccessful search: all that was visited is refuted, so none of it is derivable. */
  lemma {:induction false} RefutedNotDerivable(ts: seq<Tuple>, rules: Rules, s: Subject, keys: set<Key>)
    requires forall n :: n in keys ==> Refuted(ts, rules, s, keys, n)
    ensures forall n :: n in keys ==> n !in Derivable(ts, rules, s)
  {
    DerivableIsLeast(ts, rules, s, Unseen(keys));
  }

  /** The keys a search can reach besides its start. */
  ghost predicate Covers(universe: set<Key>, ts: seq<Tuple>, rules: Rules) {
    && (forall t :: t in ts ==> SubjectKey(t, t.subjectRelation) in universe)
    && (forall t, p, rule: Rule :: t in ts && p in rules && rule in rules[p] && rule.Arrow? ==>
      SubjectKey(t, rule.target) in universe)
  }

  ghost function Universe(ts: seq<Tuple>, rules: Rules, start: Key): (u: set<Key>)
    ensures Covers(u, ts, rules) && start in u
  {
    {start}
    + (set t | t in ts :: SubjectKey(t, t.subjectRelation))
    + (set t, p, rule | t in ts && p in rules && rule in rules[p] && rule.Arrow? :: SubjectKey(t, rule.target))
  }

  // ---------------------------------------------------------------------------
  // Writes
  // ---------------------------------------------------------------------------

  datatype Operation = CREATE | TOUCH | DELETE

  datatype Update = Update(operation: Operation, tuple: Tuple)

  /** Every field narrows; `None` leaves it open. */
  datatype Filter = Filter(resourceType: string, resourceId: Option<string>, relation: Option<string>,
    subject: Option<SubjectFilter>)

  datatype SubjectFilter = SubjectFilter(stype: string, id: Option<string>, relation: Option<string>)

  predicate Admits(wanted: Option<string>, actual: string) {
    wanted == None || wanted.value == actual
  }

  predicate MatchesFilter(t: Tuple, f: Filter) {
    && t.resourceType == f.resourceType
    && Admits(f.resourceId, t.resourceId)
    && Admits(f.relation, t.relation)
    && (f.subject == None ||
        (var s := f.subject.value;
         && t.subjectType == s.stype
         && Admits(s.id, t.subjectId)
         && Admits(s.relation, t.subjectRelation)))
  }

  /** A filter that sets every field is about one tuple; one that sets only the type is about all of it. */
  lemma {:induction false} FilterExtremes(t: Tuple, u: Tuple)
    ensures var subject := SubjectFilter(t.subjectType, Some(t.subjectId), Some(t.subjectRelation));
      MatchesFilter(u, Filter(t.resourceType, Some(t.resourceId), Some(t.relation), Some(subject))) <==> u == t
    ensures MatchesFilter(u, Filter(t.resourceType, None, None, None)) <==> u.resourceType == t.resourceType
    ensures var subject := SubjectFilter(t.subjectType, None, None);
      MatchesFilter(u, Filter(t.resourceType, None, None, Some(subject))) <==>
        u.resourceType == t.resourceType && u.subjectType == t.subjectType
  {
  }

  ghost predicate NoDuplicates(ts: seq<Tuple>) {
    forall i, j :: 0 <= i < j < |ts| ==> ts[i] != ts[j]
  }

  /** The stored set after one update that does not collide. */
  function Updated(ts: set<Tuple>, u: Update): set<Tuple> {
    if u.operation == DELETE then ts - {u.tuple} else ts + {u.tuple}
  }

  function UpdatedAll(ts: set<Tuple>, us: seq<Update>): set<Tuple> {
    if us == [] then ts else Updated(UpdatedAll(ts, us[..|us| - 1]), us[|us| - 1])
  }

  function Stored(ts: seq<Tuple>): set<Tuple> {
    set t | t in ts
  }

  /** Update `k` is the first of the batch that collides. */
  ghost predicate FirstCollision(ts: set<Tuple>, us: seq<Update>, k: nat) {
    && k < |us| && us[k].operation == CREATE && us[k].tuple in UpdatedAll(ts, us[..k])
    && forall j :: 0 <= j < k && us[j].operation == CREATE ==> us[j].tuple !in UpdatedAll(ts, us[..j])
  }

  lemma OneUpdateMore(ts: set<Tuple>, us: seq<Update>, i: nat)
    requires i < |us|
    ensures UpdatedAll(ts, us[..i + 1]) == Updated(UpdatedAll(ts, us[..i]), us[i])
  {
    assert us[..i + 1][..i] == us[..i];
  }

  class InMemoryAuthzClient {
    const rules: Rules
    var tuples: seq<Tuple>

    constructor (rules: Rules)
      ensures this.rules == rules && tuples == []
    {
      this.rules := rules;
      tuples := [];
    }

    /** Is `n` derivable?  On `false`, everything this call visited is refuted. */
    method Resolve(resourceType: string, resourceId: string, name: string, subject: Subject, seen: Seen,
        ghost universe: set<Key>)
      returns (found: bool)
      requires Covers(universe, tuples, rules) && Key(resourceType, resourceId, name) in universe
      modifies seen
      ensures old(seen.keys) <= seen.keys
      ensures found ==> Key(resourceType, resourceId, name) in Derivable(tuples, rules, subject)
      ensures !found ==> Key(resourceType, resourceId, name) in seen.keys
      ensures !found ==> forall n :: n in seen.keys - old(seen.keys) ==> Refuted(tuples, rules, subject, seen.keys, n)
      decreases universe - seen.keys, 0
    {
      var key := Key(resourceType, resourceId, name);
      if key in seen.keys {
        return false;
      }
      seen.keys := seen.keys + {key};
      DerivableIsFixedPoint(tuples, rules, subject, key);
      if (resourceType, name) !in rules {
        found := RelationHolds(resourceType, resourceId, name, subject, seen, universe);
        return;
      }
      var union := rules[(resourceType, name)];
      for i := 0 to |union|
        invariant old(seen.keys) + {key} <= seen.keys
        invariant forall n :: n in seen.keys - old(seen.keys) - {key} ==> Refuted(tuples, rules, subject, seen.keys, n)
        invariant forall j :: 0 <= j < i ==>
          !RuleGiven(tuples, subject, Unseen(seen.keys), resourceType, resourceId, union[j])
      {
        ghost var before := seen.keys;
        assert union[i] in rules[(resourceType, name)];
        match union[i] {
          case Rel(rel) =>
            var held := RelationHolds(resourceType, resourceId, rel, subject, seen, universe);
            if held {
              assert RuleGiven(tuples, subject, Derivable(tuples, rules, subject), resourceType, resourceId, union[i]);
              return true;
            }
          case Arrow(arrow, target) =>
            for k := 0 to |tuples|
              invariant before <= seen.keys
              invariant forall n :: n in seen.keys - before ==> Refuted(tuples, rules, subject, seen.keys, n)
              invariant forall j :: 0 <= j < k && On(tuples[j], resourceType, resourceId, arrow) ==>
                SubjectKey(tuples[j], target) in seen.keys
            {
              var t := tuples[k];
              if On(t, resourceType, resourceId, arrow) {
                ghost var earlier := seen.keys;
                ArrowCovered(universe, tuples, rules, t, (resourceType, name), union[i]);
                var held := Resolve(t.subjectType, t.subjectId, target, subject, seen, universe);
                if held {
                  assert RuleGiven(tuples, subject, Derivable(tuples, rules, subject), resourceType, resourceId,
                    union[i]);
                  return true;
                }
                AllRefutedStay(tuples, rules, subject, before, earlier, seen.keys);
              }
            }
        }
        AllRefutedStay(tuples, rules, subject, old(seen.keys) + {key}, before, seen.keys);
        forall j | 0 <= j < i
          ensures !RuleGiven(tuples, subject, Unseen(seen.keys), resourceType, resourceId, union[j])
        {
          RuleStaysRefuted(tuples, subject, before, seen.keys, resourceType, resourceId, union[j]);
        }
      }
      return false;
    }

    method RelationHolds(resourceType: string, resourceId: string, relation: string, subject: Subject, seen: Seen,
        ghost universe: set<Key>)
      returns (held: bool)
      requires Covers(universe, tuples, rules)
      modifies seen
      ensures old(seen.keys) <= seen.keys
      ensures held ==> RelationGiven(tuples, subject, Derivable(tuples, rules, subject), resourceType, resourceId,
        relation)
      ensures !held ==> !RelationGiven(tuples, subject, Unseen(seen.keys), resourceType, resourceId, relation)
      ensures !held ==> forall n :: n in seen.keys - old(seen.keys) ==> Refuted(tuples, rules, subject, seen.keys, n)
      decreases universe - seen.keys, 1
    {
      for k := 0 to |tuples|
        invariant old(seen.keys) <= seen.keys
        invariant forall n :: n in seen.keys - old(seen.keys) ==> Refuted(tuples, rules, subject, seen.keys, n)
        invariant forall j :: 0 <= j < k && On(tuples[j], resourceType, resourceId, relation) ==>
          !Grants(subject, Unseen(seen.keys), tuples[j])
      {
        var t := tuples[k];
        if !On(t, resourceType, resourceId, relation) {
          continue;
        }
        if t.subjectRelation == "" {
          if t.subjectType == subject.stype && t.subjectId == subject.id {
            return true;
          }
        } else {
          ghost var before := seen.keys;
          var found := Resolve(t.subjectType, t.subjectId, t.subjectRelation, subject, seen, universe);
          if found {
            return true;
          }
          AllRefutedStay(tuples, rules, subject, old(seen.keys), before, seen.keys);
        }
      }
      return false;
    }

    /** `check`: the answer is exactly derivability, whatever cycles the store contains. */
    method Check(subject: Subject, permission: string, resourceType: string, resourceId: string) returns (allowed: bool)
      ensures allowed <==> Key(resourceType, resourceId, permission) in Derivable(tuples, rules, subject)
    {
      var seen := new Seen();
      ghost var key := Key(resourceType, resourceId, permission);
      allowed := Resolve(resourceType, resourceId, permission, subject, seen, Universe(tuples, rules, key));
      if !allowed {
        RefutedNotDerivable(tuples, rules, subject, seen.keys);
      }
    }

    /** `lookupResources`: exactly the ids on which `check` holds, ascending, without duplicates. */
    method LookupResources(subject: Subject, permission: string, resourceType: string) returns (ids: seq<string>)
      ensures forall id :: id in ids <==> Key(resourceType, id, permission) in Derivable(tuples, rules, subject)
      ensures forall i, j :: 0 <= i < j < |ids| ==> StringLt(ids[i], ids[j])
    {
      var candidates: seq<string> := [];
      for k := 0 to |tuples|
        invariant Distinct(candidates)
        invariant forall id :: id in candidates <==>
          exists j :: 0 <= j < k && tuples[j].resourceType == resourceType && tuples[j].resourceId == id
      {
        var t := tuples[k];
        if t.resourceType == resourceType && t.resourceId !in candidates {
          candidates := candidates + [t.resourceId];
        }
      }
      ghost var D := Derivable(tuples, rules, subject);
      var out: seq<string> := [];
      for k := 0 to |candidates|
        invariant Distinct(out)
        invariant forall id :: id in out <==> id in candidates[..k] && Key(resourceType, id, permission) in D
      {
        var allowed := Check(subject, permission, resourceType, candidates[k]);
        if allowed {
          assert candidates[k] !in candidates[..k];
          out := out + [candidates[k]];
        }
      }
      forall id | Key(resourceType, id, permission) in D ensures id in candidates {
        OnlyMentionedIds(tuples, rules, subject, Key(resourceType, id, permission));
      }
      assert candidates[..|candidates|] == candidates;
      ids := SortStrings(out);
      SortedDistinct(out);
    }

    /** `writeRelationships`.  A colliding CREATE stops the batch, but what came before it stays. */
    method WriteRelationships(updates: seq<Update>) returns (failed: bool)
      requires NoDuplicates(tuples)
      modifies this
      ensures NoDuplicates(tuples)
      ensures !failed ==> Stored(tuples) == UpdatedAll(Stored(old(tuples)), updates)
      ensures failed ==> exists k: nat :: FirstCollision(Stored(old(tuples)), updates, k)
                                  && Stored(tuples) == UpdatedAll(Stored(old(tuples)), updates[..k])
      ensures (exists k: nat :: FirstCollision(Stored(old(tuples)), updates, k)) ==> failed
    {
      ghost var before := Stored(tuples);
      for i := 0 to |updates|
        invariant NoDuplicates(tuples)
        invariant Stored(tuples) == UpdatedAll(before, updates[..i])
        invariant forall j :: 0 <= j < i && updates[j].operation == CREATE ==>
          updates[j].tuple !in UpdatedAll(before, updates[..j])
      {
        var u := updates[i];
        OneUpdateMore(before, updates, i);
        assert u.tuple in tuples <==> u.tuple in Stored(tuples);
        if u.operation == DELETE {
          tuples := RemoveOne(tuples, u.tuple);
        } else if u.tuple !in tuples {
          tuples := tuples + [u.tuple];
          assert Stored(tuples) == UpdatedAll(before, updates[..i]) + {u.tuple};
        } else if u.operation == CREATE {
          assert FirstCollision(before, updates, i);
          return true;
        }
        assert Stored(tuples) == Updated(UpdatedAll(before, updates[..i]), u);
      }
      assert updates[..|updates|] == updates;
      return false;
    }

    /** `deleteRelationships`: every tuple the filter matches goes, nothing else. */
    method DeleteRelationships(f: Filter)
      requires NoDuplicates(tuples)
      modifies this
      ensures NoDuplicates(tuples)
      ensures Stored(tuples) == set t | t in Stored(old(tuples)) && !MatchesFilter(t, f)
    {
      var kept: seq<Tuple> := [];
      for i := 0 to |tuples|
        invariant tuples == old(tuples)
        invariant NoDuplicates(kept)
        invariant forall t :: t in kept <==> t in tuples[..i] && !MatchesFilter(t, f)
      {
        if !MatchesFilter(tuples[i], f) {
          assert tuples[i] !in tuples[..i];
          kept := kept + [tuples[i]];
        }
      }
      assert tuples[..|tuples|] == tuples;
      tuples := kept;
    }
  }

  /** Nothing can be derived on an object that no tuple mentions as its resource. */
  lemma {:induction false} OnlyMentionedIds(ts: seq<Tuple>, rules: Rules, s: Subject, n: Key)
    requires n in Derivable(ts, rules, s)
    ensures exists j :: 0 <= j < |ts| && ts[j].resourceType == n.resourceType && ts[j].resourceId == n.resourceId
  {
    DerivableIsFixedPoint(ts, rules, s, n);
    var m := GivenByOne(ts, rules, s, Derivable(ts, rules, s), n);
  }

  /** `splice` of the first occurrence. */
  function RemoveOne(ts: seq<Tuple>, t: Tuple): (r: seq<Tuple>)
    requires NoDuplicates(ts)
    ensures NoDuplicates(r)
    ensures forall u :: u in r <==> u in ts && u != t
  {
    if ts == [] then []
    else if ts[0] == t then
      assert t !in ts[1..];
      ts[1..]
    else
      assert forall u :: u in ts <==> u == ts[0] || u in ts[1..];
      assert ts[0] !in ts[1..];
      var r := RemoveOne(ts[1..], t);
      assert ts[0] !in r;
      [ts[0]] + r
  }

  /** Update `i` is the last one of the batch about its tuple. */
  ghost predicate LastWord(us: seq<Update>, i: nat) {
    i < |us| && forall j :: i < j < |us| ==> us[j].tuple != us[i].tuple
  }

  lemma {:induction false} LastWordDecides(ts: set<Tuple>, us: seq<Update>, t: Tuple)
    ensures (forall i :: 0 <= i < |us| ==> us[i].tuple != t) ==> (t in UpdatedAll(ts, us) <==> t in ts)
    ensures forall i: nat :: LastWord(us, i) && us[i].tuple == t ==>
      (t in UpdatedAll(ts, us) <==> us[i].operation != DELETE)
  {
    if us != [] {
      var n := |us| - 1;
      LastWordDecides(ts, us[..n], t);
      forall i: nat | LastWord(us, i) && us[i].tuple == t
        ensures t in UpdatedAll(ts, us) <==> us[i].operation != DELETE
      {
        if i < n {
          LastWordEarlier(us, i);
        }
      }
    }
  }

  lemma LastWordEarlier(us: seq<Update>, i: nat)
    requires LastWord(us, i) && i < |us| - 1
    ensures LastWord(us[..|us| - 1], i) && us[|us| - 1].tuple != us[i].tuple
  {
  }

  lemma {:induction false} HasLastWord(us: seq<Update>, t: Tuple, k: nat) returns (i: nat)
    requires k < |us| && us[k].tuple == t
    ensures LastWord(us, i) && us[i].tuple == t
    decreases |us| - k
  {
    i := k;
    if j :| k < j < |us| && us[j].tuple == t {
      i := HasLastWord(us, t, j);
    }
  }

  /** `writeRelationships` is not all-or-nothing: on a collision at update `k` the store stays as it
      was exactly when the last word on every tuple named before `k` says what the store already said. */
  lemma {:induction false} FailedBatchLeavesStoreExactly(ts: set<Tuple>, us: seq<Update>, k: nat)
    requires FirstCollision(ts, us, k)
    ensures UpdatedAll(ts, us[..k]) == ts
       <==> forall i: nat :: LastWord(us[..k], i) ==> (us[i].tuple in ts <==> us[i].operation != DELETE)
  {
    var prefix := us[..k];
    if UpdatedAll(ts, prefix) == ts {
      forall i: nat | LastWord(prefix, i) ensures us[i].tuple in ts <==> us[i].operation != DELETE {
        LastWordDecides(ts, prefix, prefix[i].tuple);
      }
    }
    if forall i: nat :: LastWord(prefix, i) ==> (us[i].tuple in ts <==> us[i].operation != DELETE) {
      forall t ensures t in UpdatedAll(ts, prefix) <==> t in ts {
        LastWordDecides(ts, prefix, t);
        if j :| 0 <= j < |prefix| && prefix[j].tuple == t {
          var i := HasLastWord(prefix, t, j);
        }
      }
    }
  }

  /** A batch that fails and yet changes the store. */
  lemma {:induction false} FailedBatchCanChangeStore(t: Tuple, u: Tuple)
    requires t != u
    ensures var us := [Update(TOUCH, t), Update(CREATE, u)];
            FirstCollision({u}, us, 1) && UpdatedAll({u}, us[..1]) == {t, u} != {u}
  {
    var us := [Update(TOUCH, t), Update(CREATE, u)];
    assert us[..1] == [Update(TOUCH, t)] && us[..1][..0] == [];
    assert UpdatedAll({u}, us[..1]) == Updated({u}, us[0]);
  }

  lemma ArrowCovered(universe: set<Key>, ts: seq<Tuple>, rules: Rules, t: Tuple, p: (string, string), rule: Rule)
    requires Covers(universe, ts, rules) && t in ts && p in rules && rule in rules[p] && rule.Arrow?
    ensures SubjectKey(t, rule.target) in universe
  {
  }

  lemma AllRefutedStay(ts: seq<Tuple>, rules: Rules, s: Subject, base: set<Key>, keys: set<Key>, more: set<Key>)
    requires keys <= more
    requires forall n :: n in keys - base ==> Refuted(ts, rules, s, keys, n)
    requires forall n :: n in more - keys ==> Refuted(ts, rules, s, more, n)
    ensures forall n :: n in more - base ==> Refuted(ts, rules, s, more, n)
  {
    forall n | n in more - base ensures Refuted(ts, rules, s, more, n) {
      if n in keys {
        RefutedStays(ts, rules, s, keys, more, n);
      }
    }
  }

  lemma RuleStaysRefuted(ts: seq<Tuple>, s: Subject, keys: set<Key>, more: set<Key>, resourceType: string,
      resourceId: string, rule: Rule)
    requires keys <= more
    requires !RuleGiven(ts, s, Unseen(keys), resourceType, resourceId, rule)
    ensures !RuleGiven(ts, s, Unseen(more), resourceType, resourceId, rule)
  {
    assert Unseen(more) <= Unseen(keys);
  }
}

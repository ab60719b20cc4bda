/** Ordering and evaluation of a source's rules. One rule's expression is an arbitrary verdict. */
module Rules {

  type RuleId = nat
  type SourceId = nat
  type DestId = nat

  datatype Action = Drop | Route(destinations: seq<DestId>)

  datatype Rule = Rule(
    id: RuleId,
    source: SourceId,
    name: string,
    priority: int,
    createdAt: int,
    enabled: bool,
    action: Action)

  /** What evaluating an expression can give: no program or a runtime error, a non-boolean, or a boolean. */
  datatype Verdict = Broken | NotBoolean | Matches | Misses

  /** A rule without a verdict of its own counts as broken. */
  type Verdicts = map<RuleId, Verdict>

  predicate Fires(v: Verdicts, r: Rule) { r.id in v && v[r.id] == Matches }

  datatype Decision = NoDecision | Decided(rule: Rule)

  function Evaluate(rs: seq<Rule>, v: Verdicts): Decision {
    if rs == [] then NoDecision
    else if Fires(v, rs[0]) then Decided(rs[0])
    else Evaluate(rs[1..], v)
  }

  /** The loop: broken rules are skipped, the first match returns. */
  method EvaluateRules(rs: seq<Rule>, v: Verdicts) returns (d: Decision)
    ensures d == Evaluate(rs, v)
  {
    for i := 0 to |rs|
      invariant Evaluate(rs, v) == Evaluate(rs[i..], v)
    {
      var verdict := if rs[i].id in v then v[rs[i].id] else Broken;
      if verdict == Broken || verdict == NotBoolean || verdict == Misses { continue; }
      return Decided(rs[i]);
    }
    return NoDecision;
  }

  /** ORDER BY priority, created_at. */
  predicate LessEq(a: Rule, b: Rule) {
    a.priority < b.priority || (a.priority == b.priority && a.createdAt <= b.createdAt)
  }

  ghost predicate Ordered(rs: seq<Rule>) {
    forall i, j :: 0 <= i < j < |rs| ==>
      rs[i].priority < rs[j].priority || (rs[i].priority == rs[j].priority && rs[i].createdAt <= rs[j].createdAt)
  }

  function Insert(r: Rule, rs: seq<Rule>): seq<Rule> {
    if rs == [] || LessEq(r, rs[0]) then [r] + rs else [rs[0]] + Insert(r, rs[1..])
  }

  function Sort(rs: seq<Rule>): seq<Rule> {
    if rs == [] then [] else Insert(rs[0], Sort(rs[1..]))
  }

  function Select(rs: seq<Rule>, source: SourceId): seq<Rule> {
    if rs == [] then []
    else if rs[0].enabled && rs[0].source == source then [rs[0]] + Select(rs[1..], source)
    else Select(rs[1..], source)
  }

  /** The rules table in any physical order, read for one source in evaluation order. */
  function ListEnabled(rules: seq<Rule>, source: SourceId): seq<Rule> { Sort(Select(rules, source)) }

  lemma {:induction false} InsertMembers(r: Rule, rs: seq<Rule>)
    ensures multiset(Insert(r, rs)) == multiset{r} + multiset(rs)
  {
    if rs != [] && !LessEq(r, rs[0]) {
      InsertMembers(r, rs[1..]);
      assert rs == [rs[0]] + rs[1..];
    }
  }

  lemma {:induction false} InsertIn(r: Rule, rs: seq<Rule>, i: nat)
    requires i < |Insert(r, rs)|
    ensures Insert(r, rs)[i] == r || Insert(r, rs)[i] in rs
  {
    if rs != [] && !LessEq(r, rs[0]) && i > 0 {
      InsertIn(r, rs[1..], i - 1);
      assert forall x :: x in rs[1..] ==> x in rs;
    }
  }

  /** A rule that comes before all of a list in order can stand before it. */
  lemma OrderedCons(low: Rule, rs: seq<Rule>)
    requires Ordered(rs) && forall i :: 0 <= i < |rs| ==> LessEq(low, rs[i])
    ensures Ordered([low] + rs)
  {
    var all := [low] + rs;
    forall i, j | 0 <= i < j < |all| ensures LessEq(all[i], all[j]) {
      assert all[j] == rs[j - 1] && (i > 0 ==> all[i] == rs[i - 1]);
    }
  }

  lemma {:induction false} InsertOrdered(r: Rule, rs: seq<Rule>)
    requires Ordered(rs)
    ensures Ordered(Insert(r, rs))
  {
    if rs == [] {
    } else if LessEq(r, rs[0]) {
      OrderedCons(r, rs);
    } else {
      InsertOrdered(r, rs[1..]);
      var tail := Insert(r, rs[1..]);
      forall i | 0 <= i < |tail| ensures LessEq(rs[0], tail[i]) {
        InsertIn(r, rs[1..], i);
        if tail[i] in rs[1..] {
          var k :| 0 <= k < |rs[1..]| && rs[1..][k] == tail[i];
          assert rs[k + 1] == tail[i];
        }
      }
      hide Insert;
      OrderedCons(rs[0], tail);
    }
  }

  lemma {:induction false} SortOrdered(rs: seq<Rule>)
    ensures Ordered(Sort(rs)) && multiset(Sort(rs)) == multiset(rs)
  {
    if rs != [] {
      SortOrdered(rs[1..]);
      InsertOrdered(rs[0], Sort(rs[1..]));
      InsertMembers(rs[0], Sort(rs[1..]));
      assert rs == [rs[0]] + rs[1..];
    }
  }

  lemma {:induction false} SelectMembers(rs: seq<Rule>, source: SourceId, r: Rule)
    ensures r in Select(rs, source) <==> r in rs && r.enabled && r.source == source
  {
    if rs != [] { SelectMembers(rs[1..], source, r); }
  }

  lemma ListedMembers(rules: seq<Rule>, source: SourceId, r: Rule)
    ensures r in ListEnabled(rules, source) <==> r in rules && r.enabled && r.source == source
  {
    SelectMembers(rules, source, r);
    SortOrdered(Select(rules, source));
    assert r in ListEnabled(rules, source) <==> r in multiset(ListEnabled(rules, source));
  }

  lemma {:induction false} EvaluateFirst(rs: seq<Rule>, v: Verdicts)
    requires Ordered(rs)
    ensures match Evaluate(rs, v)
            case NoDecision => forall r :: r in rs ==> !Fires(v, r)
            case Decided(r) => r in rs && Fires(v, r) && forall x :: x in rs && Fires(v, x) && x != r ==> LessEq(r, x)
  {
    if rs != [] {
      assert rs == [rs[0]] + rs[1..];
      EvaluateFirst(rs[1..], v);
      forall x | x in rs ensures x == rs[0] || x in rs[1..] {}
      if Fires(v, rs[0]) {
        forall x | x in rs && x != rs[0] ensures LessEq(rs[0], x) {
          var i :| 0 <= i < |rs| && rs[i] == x;
          assert i > 0;
        }
      }
    }
  }

  /** The decision: a matching enabled rule of the source with the lowest (priority, created_at),
      and none exactly when no enabled rule matches. */
  lemma LowestMatchDecides(rules: seq<Rule>, source: SourceId, v: Verdicts)
    ensures match Evaluate(ListEnabled(rules, source), v)
            case NoDecision =>
              forall r :: r in rules && r.enabled && r.source == source ==> !(r.id in v && v[r.id] == Matches)
            case Decided(r) =>
              && r in rules && r.enabled && r.source == source && r.id in v && v[r.id] == Matches
              && forall x :: && x in rules && x.enabled && x.source == source
                             && x.id in v && v[x.id] == Matches && x != r ==>
                   r.priority < x.priority || (r.priority == x.priority && r.createdAt <= x.createdAt)
  {
    var rs := ListEnabled(rules, source);
    SortOrdered(Select(rules, source));
    EvaluateFirst(rs, v);
    forall x ensures x in rs <==> x in rules && x.enabled && x.source == source {
      ListedMembers(rules, source, x);
    }
  }

  // Deleting rules that do not match

  function Without(rs: seq<Rule>, gone: set<RuleId>): seq<Rule> {
    if rs == [] then []
    else if rs[0].id in gone then Without(rs[1..], gone)
    else [rs[0]] + Without(rs[1..], gone)
  }

  lemma {:induction false} WithoutOrdered(rs: seq<Rule>, gone: set<RuleId>, low: Rule)
    requires Ordered(rs) && forall r :: r in rs ==> LessEq(low, r)
    ensures forall r :: r in Without(rs, gone) ==> LessEq(low, r)
  {
    if rs != [] {
      assert rs == [rs[0]] + rs[1..];
      WithoutOrdered(rs[1..], gone, low);
    }
  }

  lemma {:induction false} WithoutInsert(r: Rule, rs: seq<Rule>, gone: set<RuleId>)
    requires Ordered(rs)
    ensures Without(Insert(r, rs), gone) == if r.id in gone then Without(rs, gone) else Insert(r, Without(rs, gone))
  {
    if rs == [] || LessEq(r, rs[0]) {
      assert ([r] + rs)[1..] == rs;
      if r.id !in gone {
        forall x | x in rs ensures LessEq(r, x) {
          var i :| 0 <= i < |rs| && rs[i] == x;
        }
        WithoutOrdered(rs, gone, r);
        var kept := Without(rs, gone);
        assert kept != [] ==> kept[0] in kept;
      }
    } else {
      WithoutInsert(r, rs[1..], gone);
      assert ([rs[0]] + Insert(r, rs[1..]))[1..] == Insert(r, rs[1..]);
      var kept := Without(rs, gone);
      if rs[0].id !in gone { assert kept[1..] == Without(rs[1..], gone); }
    }
  }

  lemma {:induction false} WithoutSort(rs: seq<Rule>, gone: set<RuleId>)
    ensures Without(Sort(rs), gone) == Sort(Without(rs, gone))
  {
    if rs != [] {
      WithoutSort(rs[1..], gone);
      SortOrdered(rs[1..]);
      WithoutInsert(rs[0], Sort(rs[1..]), gone);
      var kept := Without(rs, gone);
      if rs[0].id !in gone { assert kept[1..] == Without(rs[1..], gone); }
    }
  }

  lemma {:induction false} WithoutSelect(rs: seq<Rule>, source: SourceId, gone: set<RuleId>)
    ensures Without(Select(rs, source), gone) == Select(Without(rs, gone), source)
  {
    if rs != [] {
      WithoutSelect(rs[1..], source, gone);
      var chosen := Select(rs, source);
      if rs[0].enabled && rs[0].source == source { assert chosen[1..] == Select(rs[1..], source); }
      var kept := Without(rs, gone);
      if rs[0].id !in gone { assert kept[1..] == Without(rs[1..], gone); }
    }
  }

  lemma {:induction false} WithoutEvaluate(rs: seq<Rule>, gone: set<RuleId>, v: Verdicts)
    requires forall r :: r in rs && r.id in gone ==> !Fires(v, r)
    ensures Evaluate(Without(rs, gone), v) == Evaluate(rs, v)
  {
    if rs != [] {
      WithoutEvaluate(rs[1..], gone, v);
      var kept := Without(rs, gone);
      if rs[0].id !in gone { assert kept[1..] == Without(rs[1..], gone); }
    }
  }

  /** Deleting any rules that are broken, not boolean or false never changes the decision. */
  lemma BrokenRulesIrrelevant(rules: seq<Rule>, source: SourceId, gone: set<RuleId>, v: Verdicts)
    requires forall r :: r in rules && r.id in gone ==>
               r.id !in v || v[r.id] == Broken || v[r.id] == NotBoolean || v[r.id] == Misses
    ensures Evaluate(ListEnabled(Without(rules, gone), source), v) == Evaluate(ListEnabled(rules, source), v)
  {
    WithoutSelect(rules, source, gone);
    WithoutSort(Select(rules, source), gone);
    forall r | r in ListEnabled(rules, source) && r.id in gone ensures !Fires(v, r) {
      ListedMembers(rules, source, r);
    }
    WithoutEvaluate(ListEnabled(rules, source), gone, v);
  }
}

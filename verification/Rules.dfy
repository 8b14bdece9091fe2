/**
 * Mapping rules: sorted by priority and name, folded in order, stopped by the first matching rule
 * that says so. Whether a rule matches a record is taken as a given predicate.
 */
module Rules {
  import opened Options
  import opened Text

  datatype Field = Company | CostCenter | Project | ExpenseAccount | Supplier | TaxTemplate | ItemCode | BusinessUnit

  /** A rule's values hold its non-empty fields only; a zero priority stands for an unset one. */
  datatype Rule = Rule(name: string, priority: int, enabled: bool, stops: bool, values: map<Field, string>)
  {
    function Key(): (int, string) {
      (if priority != 0 then priority else 1000, name)
    }
  }

  datatype Result = Result(values: map<Field, string>, sourceRule: Option<string>)

  // ---------------------------------------------------------------- the order of rules

  predicate Below(a: (int, string), b: (int, string)) {
    a.0 < b.0 || (a.0 == b.0 && TextBelow(a.1, b.1))
  }

  lemma KeysAreOrdered(a: (int, string), b: (int, string), c: (int, string))
    ensures Below(a, b) || Below(b, a) || a == b
    ensures !(Below(a, b) && Below(b, a)) && !Below(a, a)
    ensures Below(a, b) && Below(b, c) ==> Below(a, c)
  {
    TextIsTotal(a.1, b.1);
    TextIsTotal(a.1, a.1);
    if Below(a, b) && Below(b, c) && a.0 == b.0 == c.0 {
      TextIsTransitive(a.1, b.1, c.1);
    }
  }

  /** A stable insertion: behind every rule whose key is not greater. */
  function InsertRule(sorted: seq<Rule>, rule: Rule): seq<Rule> {
    if sorted == [] || Below(rule.Key(), sorted[0].Key()) then [rule] + sorted
    else [sorted[0]] + InsertRule(sorted[1..], rule)
  }

  function SortRules(rules: seq<Rule>): seq<Rule> {
    if rules == [] then [] else InsertRule(SortRules(rules[..|rules| - 1]), rules[|rules| - 1])
  }

  ghost predicate Sorted(rules: seq<Rule>) {
    forall i, j | 0 <= i < j < |rules| :: !Below(rules[j].Key(), rules[i].Key())
  }

  ghost predicate DistinctKeys(rules: seq<Rule>) {
    forall i, j | 0 <= i < j < |rules| :: rules[i].Key() != rules[j].Key()
  }

  lemma {:induction false} InsertKeepsSorted(sorted: seq<Rule>, rule: Rule)
    requires Sorted(sorted)
    ensures Sorted(InsertRule(sorted, rule)) && multiset(InsertRule(sorted, rule)) == multiset(sorted) + multiset{rule}
  {
    if sorted == [] {
    } else if Below(rule.Key(), sorted[0].Key()) {
      forall j | 0 <= j < |sorted| ensures !Below(sorted[j].Key(), rule.Key()) {
        KeysAreOrdered(sorted[j].Key(), rule.Key(), sorted[0].Key());
        KeysAreOrdered(rule.Key(), sorted[0].Key(), sorted[j].Key());
      }
    } else {
      var rest := InsertRule(sorted[1..], rule);
      InsertKeepsSorted(sorted[1..], rule);
      assert sorted == [sorted[0]] + sorted[1..];
      forall j | 0 <= j < |rest| ensures !Below(rest[j].Key(), sorted[0].Key()) {
        assert rest[j] in multiset(rest);
        assert rest[j] == rule || rest[j] in sorted[1..];
      }
    }
  }

  lemma {:induction false} SortSorts(rules: seq<Rule>)
    ensures Sorted(SortRules(rules)) && multiset(SortRules(rules)) == multiset(rules)
  {
    if rules != [] {
      var last := |rules| - 1;
      SortSorts(rules[..last]);
      InsertKeepsSorted(SortRules(rules[..last]), rules[last]);
      assert rules == rules[..last] + [rules[last]];
    }
  }

  lemma FirstIsLeast(sorted: seq<Rule>, rule: Rule)
    requires Sorted(sorted) && rule in sorted
    ensures !Below(rule.Key(), sorted[0].Key())
  {
    var i :| 0 <= i < |sorted| && sorted[i] == rule;
    KeysAreOrdered(rule.Key(), rule.Key(), rule.Key());
  }

  lemma FirstsAgree(a: seq<Rule>, b: seq<Rule>)
    requires Sorted(a) && Sorted(b) && multiset(a) == multiset(b) && DistinctKeys(a) && a != [] && b != []
    ensures a[0] == b[0]
  {
    assert a[0] in multiset(a) && b[0] in multiset(b);
    FirstIsLeast(b, a[0]);
    FirstIsLeast(a, b[0]);
    KeysAreOrdered(a[0].Key(), b[0].Key(), a[0].Key());
    var j :| 0 <= j < |a| && a[j] == b[0];
  }

  lemma RestsAgree(a: seq<Rule>, b: seq<Rule>)
    requires multiset(a) == multiset(b) && a != [] && b != [] && a[0] == b[0]
    ensures multiset(a[1..]) == multiset(b[1..])
  {
    assert a == [a[0]] + a[1..] && b == [b[0]] + b[1..];
    assert multiset(a[1..]) == multiset(a) - multiset{a[0]};
    assert multiset(b[1..]) == multiset(b) - multiset{b[0]};
  }

  /** With distinct keys there is one sorted arrangement. */
  lemma {:induction false} SortedIsUnique(a: seq<Rule>, b: seq<Rule>)
    requires Sorted(a) && Sorted(b) && multiset(a) == multiset(b) && DistinctKeys(a)
    ensures a == b
  {
    assert |multiset(a)| == |a| && |multiset(b)| == |b|;
    if a != [] {
      FirstsAgree(a, b);
      RestsAgree(a, b);
      SortedIsUnique(a[1..], b[1..]);
      assert a == [a[0]] + a[1..] && b == [b[0]] + b[1..];
    }
  }

  // ---------------------------------------------------------------- folding

  predicate Active(hit: Rule -> bool, rule: Rule) {
    rule.enabled && hit(rule)
  }

  function Merged(values: map<Field, string>, rule: Rule): map<Field, string> {
    values + rule.values
  }

  /** The rules from the front, over what is merged so far. */
  function Fold(ordered: seq<Rule>, hit: Rule -> bool, so: Result): Result {
    if ordered == [] then so
    else if !Active(hit, ordered[0]) then Fold(ordered[1..], hit, so)
    else
      var now := Result(Merged(so.values, ordered[0]), Some(ordered[0].name));
      if ordered[0].stops then now else Fold(ordered[1..], hit, now)
  }

  function Resolve(rules: seq<Rule>, hit: Rule -> bool, defaults: map<Field, string>): Result {
    Fold(SortRules(rules), hit, Result(defaults, None))
  }

  /** Rule `i` takes part: it matches, and no matching rule before it stops the search. */
  ghost predicate TakesPart(ordered: seq<Rule>, hit: Rule -> bool, i: nat) {
    && i < |ordered| && Active(hit, ordered[i])
    && forall j | 0 <= j < i :: !(Active(hit, ordered[j]) && ordered[j].stops)
  }

  /** Rule `i` is the last to take part among those that `P` holds of. */
  ghost predicate LastWithField(ordered: seq<Rule>, hit: Rule -> bool, f: Field, i: nat) {
    && TakesPart(ordered, hit, i) && f in ordered[i].values
    && forall k | i < k < |ordered| && TakesPart(ordered, hit, k) :: f !in ordered[k].values
  }

  ghost predicate LastToTakePart(ordered: seq<Rule>, hit: Rule -> bool, i: nat) {
    TakesPart(ordered, hit, i) && forall k | i < k < |ordered| :: !TakesPart(ordered, hit, k)
  }

  /** A field is what the last rule with that field to take part says, or else the default. */
  ghost predicate FieldMeans(ordered: seq<Rule>, hit: Rule -> bool, defaults: map<Field, string>, f: Field,
                             value: Option<string>)
  {
    || (exists i: nat :: LastWithField(ordered, hit, f, i) && value == Some(ordered[i].values[f]))
    || ((forall i: nat | TakesPart(ordered, hit, i) :: f !in ordered[i].values)
        && value == if f in defaults then Some(defaults[f]) else None)
  }

  /** The source rule is the last to take part. */
  ghost predicate SourceMeans(ordered: seq<Rule>, hit: Rule -> bool, before: Option<string>, source: Option<string>) {
    || (exists i: nat :: LastToTakePart(ordered, hit, i) && source == Some(ordered[i].name))
    || ((forall i: nat :: !TakesPart(ordered, hit, i)) && source == before)
  }

  function ValueOf(r: Result, f: Field): Option<string> {
    if f in r.values then Some(r.values[f]) else None
  }

  lemma TakesPartShift(ordered: seq<Rule>, hit: Rule -> bool, i: nat)
    requires ordered != []
    ensures TakesPart(ordered, hit, i + 1)
            <==> TakesPart(ordered[1..], hit, i) && !(Active(hit, ordered[0]) && ordered[0].stops)
  {
    if TakesPart(ordered, hit, i + 1) {
      assert forall j | 0 <= j < i :: ordered[1..][j] == ordered[j + 1];
    } else if TakesPart(ordered[1..], hit, i) && !(Active(hit, ordered[0]) && ordered[0].stops) {
      forall j | 0 <= j < i + 1 ensures !(Active(hit, ordered[j]) && ordered[j].stops) {
        if j > 0 {
          assert ordered[1..][j - 1] == ordered[j];
        }
      }
    }
  }

  lemma {:induction false} FoldMeansField(ordered: seq<Rule>, hit: Rule -> bool, so: Result, f: Field)
    ensures FieldMeans(ordered, hit, so.values, f, ValueOf(Fold(ordered, hit, so), f))
  {
    if ordered != [] {
      forall i: nat
        ensures TakesPart(ordered, hit, i + 1)
                <==> TakesPart(ordered[1..], hit, i) && !(Active(hit, ordered[0]) && ordered[0].stops)
      {
        TakesPartShift(ordered, hit, i);
      }
      var rest := ordered[1..];
      assert TakesPart(ordered, hit, 0) <==> Active(hit, ordered[0]);
      if Active(hit, ordered[0]) && ordered[0].stops {
        assert forall i: nat | TakesPart(ordered, hit, i) :: i == 0;
        if f in ordered[0].values {
          assert LastWithField(ordered, hit, f, 0);
        }
      } else {
        var now := if Active(hit, ordered[0]) then Result(Merged(so.values, ordered[0]), Some(ordered[0].name)) else so;
        FoldMeansField(rest, hit, now, f);
        FieldMeansShift(ordered, hit, so.values, now.values, f, ValueOf(Fold(rest, hit, now), f));
      }
    }
  }

  lemma FieldMeansShift(ordered: seq<Rule>, hit: Rule -> bool, before: map<Field, string>, now: map<Field, string>,
                        f: Field,
                        value: Option<string>)
    requires ordered != [] && !(Active(hit, ordered[0]) && ordered[0].stops)
    requires now == if Active(hit, ordered[0]) then Merged(before, ordered[0]) else before
    requires FieldMeans(ordered[1..], hit, now, f, value)
    ensures FieldMeans(ordered, hit, before, f, value)
  {
    var rest := ordered[1..];
    forall i: nat ensures TakesPart(ordered, hit, i + 1) <==> TakesPart(rest, hit, i) {
      TakesPartShift(ordered, hit, i);
    }
    if i: nat :| LastWithField(rest, hit, f, i) && value == Some(rest[i].values[f]) {
      forall k | i + 1 < k < |ordered| && TakesPart(ordered, hit, k) ensures f !in ordered[k].values {
        assert TakesPart(ordered, hit, (k - 1) + 1) <==> TakesPart(rest, hit, k - 1);
        assert rest[k - 1] == ordered[k];
      }
      assert LastWithField(ordered, hit, f, i + 1);
    } else {
      forall k: nat | 0 < k < |ordered| && TakesPart(ordered, hit, k) ensures f !in ordered[k].values {
        assert TakesPart(ordered, hit, (k - 1) + 1) <==> TakesPart(rest, hit, k - 1);
        assert rest[k - 1] == ordered[k];
      }
      if Active(hit, ordered[0]) && f in ordered[0].values {
        assert LastWithField(ordered, hit, f, 0);
      }
    }
  }

  lemma {:induction false} FoldMeansSource(ordered: seq<Rule>, hit: Rule -> bool, so: Result)
    ensures SourceMeans(ordered, hit, so.sourceRule, Fold(ordered, hit, so).sourceRule)
  {
    if ordered != [] {
      var rest := ordered[1..];
      forall i: nat
        ensures TakesPart(ordered, hit, i + 1)
                <==> (TakesPart(rest, hit, i) && !(Active(hit, ordered[0]) && ordered[0].stops))
      {
        TakesPartShift(ordered, hit, i);
      }
      var now := if Active(hit, ordered[0]) then Result(Merged(so.values, ordered[0]), Some(ordered[0].name)) else so;
      if Active(hit, ordered[0]) && ordered[0].stops {
        forall k | 0 < k < |ordered| ensures !TakesPart(ordered, hit, k) {
          assert TakesPart(ordered, hit, (k - 1) + 1) ==> false;
        }
        assert LastToTakePart(ordered, hit, 0);
      } else {
        FoldMeansSource(rest, hit, now);
        if i: nat :| LastToTakePart(rest, hit, i) && Fold(rest, hit, now).sourceRule == Some(rest[i].name) {
          forall k | i + 1 < k < |ordered| ensures !TakesPart(ordered, hit, k) {
            assert TakesPart(ordered, hit, (k - 1) + 1) <==> TakesPart(rest, hit, k - 1);
          }
          assert LastToTakePart(ordered, hit, i + 1);
        } else {
          forall k: nat | 0 < k ensures !TakesPart(ordered, hit, k) {
            assert TakesPart(ordered, hit, (k - 1) + 1) <==> TakesPart(rest, hit, k - 1);
          }
          if Active(hit, ordered[0]) {
            assert LastToTakePart(ordered, hit, 0);
          }
        }
      }
    }
  }

  /** The loop's answer is the declarative meaning of the sorted rules, field by field. */
  lemma ResolveMeans(rules: seq<Rule>, hit: Rule -> bool, defaults: map<Field, string>)
    ensures var r := Resolve(rules, hit, defaults);
            && (forall f :: FieldMeans(SortRules(rules), hit, defaults, f, ValueOf(r, f)))
            && SourceMeans(SortRules(rules), hit, None, r.sourceRule)
  {
    forall f ensures FieldMeans(SortRules(rules), hit, defaults, f, ValueOf(Resolve(rules, hit, defaults), f)) {
      FoldMeansField(SortRules(rules), hit, Result(defaults, None), f);
    }
    FoldMeansSource(SortRules(rules), hit, Result(defaults, None));
  }

  /** The declarative meaning determines the value. */
  lemma MeaningIsUnique(ordered: seq<Rule>, hit: Rule -> bool, defaults: map<Field, string>, f: Field,
                        a: Option<string>, b: Option<string>)
    requires FieldMeans(ordered, hit, defaults, f, a) && FieldMeans(ordered, hit, defaults, f, b)
    ensures a == b
  {
    if i: nat, j: nat :| LastWithField(ordered, hit, f, i) && a == Some(ordered[i].values[f])
                         && LastWithField(ordered, hit, f, j) && b == Some(ordered[j].values[f]) {
      assert i == j;
    }
  }

  /** With distinct (priority, name) keys the answer does not depend on the order the rules come in. */
  lemma OrderDoesNotMatter(a: seq<Rule>, b: seq<Rule>, hit: Rule -> bool, defaults: map<Field, string>)
    requires multiset(a) == multiset(b) && DistinctKeys(a)
    ensures Resolve(a, hit, defaults) == Resolve(b, hit, defaults)
  {
    SortSorts(a);
    SortSorts(b);
    DistinctKeysSurvive(a, SortRules(a));
    SortedIsUnique(SortRules(a), SortRules(b));
  }

  lemma {:induction false} DistinctKeysSurvive(a: seq<Rule>, b: seq<Rule>)
    requires DistinctKeys(a) && multiset(a) == multiset(b)
    ensures DistinctKeys(b)
  {
    forall i, j | 0 <= i < j < |b| ensures b[i].Key() != b[j].Key() {
      if b[i].Key() == b[j].Key() {
        assert b[i] in multiset(b) && b[j] in multiset(b);
        assert b[i] in a && b[j] in a;
        assert b[i] == b[j];
        TwiceCountsTwo(b, i, j);
        OnceCountsOne(a, b[i]);
      }
    }
  }

  lemma TwiceCountsTwo(s: seq<Rule>, i: nat, j: nat)
    requires i < j < |s| && s[i] == s[j]
    ensures multiset(s)[s[i]] >= 2
  {
    assert s == s[..i] + [s[i]] + s[i + 1..j] + [s[j]] + s[j + 1..];
  }

  lemma {:induction false} OnceCountsOne(s: seq<Rule>, x: Rule)
    requires DistinctKeys(s)
    ensures multiset(s)[x] <= 1
  {
    if s != [] {
      assert s == [s[0]] + s[1..];
      OnceCountsOne(s[1..], x);
      if s[0] == x {
        assert x !in s[1..] by {
          assert forall k | 0 <= k < |s[1..]| :: s[1..][k] == s[k + 1];
        }
      }
    }
  }

  // ---------------------------------------------------------------- the meaning by priority and name

  /** A lower priority comes first, an unset one counting as a thousand; among equals the lower name. */
  predicate ComesBefore(a: Rule, b: Rule) {
    var p, q := if a.priority == 0 then 1000 else a.priority, if b.priority == 0 then 1000 else b.priority;
    p < q || (p == q && TextBelow(a.name, b.name))
  }

  /** The rule is enabled and matches, and no such rule that stops comes before it. */
  ghost predicate Applies(rules: seq<Rule>, hit: Rule -> bool, r: Rule) {
    && r in rules && r.enabled && hit(r)
    && forall q | q in rules && q.enabled && hit(q) && q.stops :: !ComesBefore(q, r)
  }

  /** The field's value is that of the last rule to apply that has it, or else the default. */
  ghost predicate FieldIs(rules: seq<Rule>, hit: Rule -> bool, defaults: map<Field, string>, f: Field,
                          value: Option<string>)
  {
    || (exists r :: Applies(rules, hit, r) && f in r.values && value == Some(r.values[f])
                    && forall q | Applies(rules, hit, q) && f in q.values && q != r :: ComesBefore(q, r))
    || ((forall r | Applies(rules, hit, r) :: f !in r.values)
        && value == if f in defaults then Some(defaults[f]) else None)
  }

  /** The source rule is the last to apply. */
  ghost predicate SourceIs(rules: seq<Rule>, hit: Rule -> bool, source: Option<string>) {
    || (exists r :: Applies(rules, hit, r) && source == Some(r.name)
                    && forall q | Applies(rules, hit, q) && q != r :: ComesBefore(q, r))
    || ((forall r :: !Applies(rules, hit, r)) && source == None)
  }

  lemma PlacesAreOrdered(ordered: seq<Rule>, i: nat, j: nat)
    requires Sorted(ordered) && DistinctKeys(ordered) && i < |ordered| && j < |ordered|
    ensures ComesBefore(ordered[i], ordered[j]) <==> i < j
  {
    KeysAreOrdered(ordered[i].Key(), ordered[j].Key(), ordered[i].Key());
  }

  lemma AppliesIsTakesPart(rules: seq<Rule>, ordered: seq<Rule>, hit: Rule -> bool, i: nat)
    requires Sorted(ordered) && DistinctKeys(ordered) && multiset(ordered) == multiset(rules) && i < |ordered|
    ensures Applies(rules, hit, ordered[i]) <==> TakesPart(ordered, hit, i)
  {
    SameRules(rules, ordered);
    forall j: nat | j < |ordered| ensures ComesBefore(ordered[j], ordered[i]) <==> j < i {
      PlacesAreOrdered(ordered, j, i);
    }
    if TakesPart(ordered, hit, i) {
      forall q | q in rules && q.enabled && hit(q) && q.stops ensures !ComesBefore(q, ordered[i]) {
        var j: nat :| j < |ordered| && ordered[j] == q;
      }
    }
    if Applies(rules, hit, ordered[i]) {
      forall j | 0 <= j < i ensures !(Active(hit, ordered[j]) && ordered[j].stops) {
        assert ordered[j] in rules && ComesBefore(ordered[j], ordered[i]);
      }
    }
  }

  lemma SameRules(rules: seq<Rule>, ordered: seq<Rule>)
    requires multiset(ordered) == multiset(rules)
    ensures forall r :: r in ordered <==> r in rules
  {
    assert forall r :: r in ordered <==> r in multiset(ordered);
    assert forall r :: r in rules <==> r in multiset(rules);
  }

  lemma LastIsLast(rules: seq<Rule>, ordered: seq<Rule>, hit: Rule -> bool, f: Field, i: nat)
    requires Sorted(ordered) && DistinctKeys(ordered) && multiset(ordered) == multiset(rules)
    requires LastWithField(ordered, hit, f, i)
    ensures Applies(rules, hit, ordered[i])
    ensures forall q | Applies(rules, hit, q) && f in q.values && q != ordered[i] :: ComesBefore(q, ordered[i])
  {
    SameRules(rules, ordered);
    AppliesIsTakesPart(rules, ordered, hit, i);
    forall q | Applies(rules, hit, q) && f in q.values && q != ordered[i] ensures ComesBefore(q, ordered[i]) {
      var j: nat :| j < |ordered| && ordered[j] == q;
      AppliesIsTakesPart(rules, ordered, hit, j);
      PlacesAreOrdered(ordered, j, i);
    }
  }

  lemma FieldIsFieldMeans(rules: seq<Rule>, ordered: seq<Rule>, hit: Rule -> bool, defaults: map<Field, string>,
                          f: Field,
                          value: Option<string>)
    requires Sorted(ordered) && DistinctKeys(ordered) && multiset(ordered) == multiset(rules)
    requires FieldMeans(ordered, hit, defaults, f, value)
    ensures FieldIs(rules, hit, defaults, f, value)
  {
    SameRules(rules, ordered);
    forall i: nat | i < |ordered| ensures Applies(rules, hit, ordered[i]) <==> TakesPart(ordered, hit, i) {
      AppliesIsTakesPart(rules, ordered, hit, i);
    }
    if i: nat :| LastWithField(ordered, hit, f, i) && value == Some(ordered[i].values[f]) {
      LastIsLast(rules, ordered, hit, f, i);
    } else {
      forall r | Applies(rules, hit, r) ensures f !in r.values {
        var j: nat :| j < |ordered| && ordered[j] == r;
      }
    }
  }

  lemma SourceIsSourceMeans(rules: seq<Rule>, ordered: seq<Rule>, hit: Rule -> bool, source: Option<string>)
    requires Sorted(ordered) && DistinctKeys(ordered) && multiset(ordered) == multiset(rules)
    requires SourceMeans(ordered, hit, None, source)
    ensures SourceIs(rules, hit, source)
  {
    SameRules(rules, ordered);
    forall i: nat | i < |ordered| ensures Applies(rules, hit, ordered[i]) <==> TakesPart(ordered, hit, i) {
      AppliesIsTakesPart(rules, ordered, hit, i);
    }
    if i: nat :| LastToTakePart(ordered, hit, i) && source == Some(ordered[i].name) {
      forall q | Applies(rules, hit, q) && q != ordered[i] ensures ComesBefore(q, ordered[i]) {
        var j: nat :| j < |ordered| && ordered[j] == q;
        PlacesAreOrdered(ordered, j, i);
      }
    } else {
      forall r | r in rules ensures !Applies(rules, hit, r) {
        var j: nat :| j < |ordered| && ordered[j] == r;
      }
    }
  }

  /** With distinct (priority, name) keys the answer is that of the rules as a set, by priority and name. */
  lemma ResolveMeansByPriority(rules: seq<Rule>, hit: Rule -> bool, defaults: map<Field, string>)
    requires DistinctKeys(rules)
    ensures var r := Resolve(rules, hit, defaults);
            && (forall f :: FieldIs(rules, hit, defaults, f, ValueOf(r, f)))
            && SourceIs(rules, hit, r.sourceRule)
  {
    var ordered, r := SortRules(rules), Resolve(rules, hit, defaults);
    SortSorts(rules);
    DistinctKeysSurvive(rules, ordered);
    ResolveMeans(rules, hit, defaults);
    forall f ensures FieldIs(rules, hit, defaults, f, ValueOf(r, f)) {
      FieldIsFieldMeans(rules, ordered, hit, defaults, f, ValueOf(r, f));
    }
    SourceIsSourceMeans(rules, ordered, hit, r.sourceRule);
  }

  /** The loop over the sorted rules, leaving it at the first matching rule that stops. */
  method ResolveRules(rules: seq<Rule>, hit: Rule -> bool, defaults: map<Field, string>) returns (r: Result)
    ensures r == Resolve(rules, hit, defaults)
  {
    var merged, sourceRule := defaults, None;
    var ordered := SortRules(rules);
    for k := 0 to |ordered|
      invariant Resolve(rules, hit, defaults) == Fold(ordered[k..], hit, Result(merged, sourceRule))
    {
      var rule := ordered[k];
      assert ordered[k..][1..] == ordered[k + 1..];
      if !Active(hit, rule) {
        continue;
      }
      sourceRule := Some(rule.name);
      merged := merged + rule.values;
      if rule.stops {
        return Result(merged, sourceRule);
      }
    }
    r := Result(merged, sourceRule);
  }
}

/**
 * Which of the receipts found for an expense are attached. Files of a mailbox are grouped by their
 * message; the files of the most confident message are taken unless another message comes close.
 */
module Receipts {
  import opened Text

  /** `message` is the id of the source message, `""` if it has none. */
  datatype Candidate = Candidate(
    source: string, file: string, provider: string, message: string, attachment: string, hash: string, confidence: real)
  {
    /** The message, or for want of one the file's own source. */
    function Key(): string { Else(message, source) }
  }

  datatype Group = Group(key: string, files: seq<Candidate>)
  {
    function Best(): real
      requires files != []
    { BestOf(files) }
  }

  datatype Entry = Entry(message: string, confidence: real, files: seq<string>)

  const MARGIN := 0.05

  function BestOf(files: seq<Candidate>): real
    requires files != []
  {
    if |files| == 1 then files[0].confidence
    else
      var rest := BestOf(files[1..]);
      if files[0].confidence >= rest then files[0].confidence else rest
  }

  lemma {:induction false} BestIsGreatest(files: seq<Candidate>)
    requires files != []
    ensures exists c :: c in files && c.confidence == BestOf(files)
    ensures forall c | c in files :: c.confidence <= BestOf(files)
  {
    assert files == [files[0]] + files[1..];
    assert files[0] in files;
    if |files| > 1 {
      BestIsGreatest(files[1..]);
      var c :| c in files[1..] && c.confidence == BestOf(files[1..]);
      assert c in files;
    }
  }

  // ---------------------------------------------------------------- grouping

  /** The dictionary of groups in insertion order: a file joins its group or opens one at the end. */
  function Join(groups: seq<Group>, c: Candidate): seq<Group> {
    if groups == [] then [Group(c.Key(), [c])]
    else if groups[0].key == c.Key() then [groups[0].(files := groups[0].files + [c])] + groups[1..]
    else [groups[0]] + Join(groups[1..], c)
  }

  function Groups(candidates: seq<Candidate>): seq<Group> {
    if candidates == [] then [] else Join(Groups(candidates[..|candidates| - 1]), candidates[|candidates| - 1])
  }

  /** The files of one message, in input order. */
  function Of(candidates: seq<Candidate>, key: string): seq<Candidate> {
    if candidates == [] then []
    else
      var before, c := Of(candidates[..|candidates| - 1], key), candidates[|candidates| - 1];
      if c.Key() == key then before + [c] else before
  }

  function Keys(groups: seq<Group>): set<string> {
    set g | g in groups :: g.key
  }

  /** No two groups of a dictionary share a key, and no group is empty. */
  predicate WellKeyed(groups: seq<Group>) {
    groups == [] || (groups[0].files != [] && groups[0].key !in Keys(groups[1..]) && WellKeyed(groups[1..]))
  }

  function Lookup(groups: seq<Group>, key: string): seq<Candidate> {
    if groups == [] then [] else if groups[0].key == key then groups[0].files else Lookup(groups[1..], key)
  }

  lemma KeysSplit(groups: seq<Group>)
    requires groups != []
    ensures Keys(groups) == {groups[0].key} + Keys(groups[1..])
  {
    assert groups == [groups[0]] + groups[1..];
  }

  lemma {:induction false} JoinJoins(groups: seq<Group>, c: Candidate, key: string)
    ensures Keys(Join(groups, c)) == Keys(groups) + {c.Key()}
    ensures Lookup(Join(groups, c), key) == if c.Key() == key then Lookup(groups, key) + [c] else Lookup(groups, key)
    ensures WellKeyed(groups) ==> WellKeyed(Join(groups, c))
  {
    KeysSplit(Join(groups, c));
    if groups != [] {
      KeysSplit(groups);
      if groups[0].key != c.Key() {
        JoinJoins(groups[1..], c, key);
        assert Join(groups, c)[1..] == Join(groups[1..], c);
      } else {
        assert Join(groups, c)[1..] == groups[1..];
      }
    }
  }

  /** Each message has one group, of its files in input order. */
  lemma {:induction false} GroupsAreByMessage(candidates: seq<Candidate>, key: string)
    ensures WellKeyed(Groups(candidates))
    ensures Lookup(Groups(candidates), key) == Of(candidates, key)
    ensures Keys(Groups(candidates)) == set c | c in candidates :: c.Key()
  {
    if candidates != [] {
      var before, c := candidates[..|candidates| - 1], candidates[|candidates| - 1];
      assert candidates == before + [c];
      GroupsAreByMessage(before, key);
      JoinJoins(Groups(before), c, key);
    }
  }

  lemma {:induction false} LookupFinds(groups: seq<Group>, g: Group)
    requires WellKeyed(groups) && g in groups
    ensures g.files != [] && Lookup(groups, g.key) == g.files
  {
    assert groups == [groups[0]] + groups[1..];
    if g != groups[0] {
      assert g in groups[1..] && g.key in Keys(groups[1..]);
      LookupFinds(groups[1..], g);
    }
  }

  // ---------------------------------------------------------------- ranking

  predicate AllFilled(groups: seq<Group>) {
    forall g | g in groups :: g.files != []
  }

  /** A stable insertion, the most confident first: ahead of every group that is not better. */
  function Place(g: Group, ranked: seq<Group>): seq<Group>
    requires g.files != [] && AllFilled(ranked)
  {
    if ranked == [] || ranked[0].Best() <= g.Best() then [g] + ranked
    else [ranked[0]] + Place(g, ranked[1..])
  }

  function Rank(groups: seq<Group>): (ranked: seq<Group>)
    requires AllFilled(groups)
    ensures AllFilled(ranked) && forall g :: g in ranked <==> g in groups
  {
    if groups == [] then []
    else
      assert groups == [groups[0]] + groups[1..];
      PlaceKeeps(groups[0], Rank(groups[1..]));
      Place(groups[0], Rank(groups[1..]))
  }

  ghost predicate Descending(ranked: seq<Group>)
    requires AllFilled(ranked)
  {
    forall i, j | 0 <= i < j < |ranked| :: ranked[i].Best() >= ranked[j].Best()
  }

  lemma {:induction false} PlaceKeeps(g: Group, ranked: seq<Group>)
    requires g.files != [] && AllFilled(ranked)
    ensures forall h :: h in Place(g, ranked) <==> h == g || h in ranked
    ensures multiset(Place(g, ranked)) == multiset(ranked) + multiset{g}
  {
    if ranked != [] && ranked[0].Best() > g.Best() {
      assert ranked == [ranked[0]] + ranked[1..];
      PlaceKeeps(g, ranked[1..]);
    }
  }

  lemma {:induction false} PlaceKeepsOrder(g: Group, ranked: seq<Group>)
    requires g.files != [] && AllFilled(ranked) && Descending(ranked)
    ensures AllFilled(Place(g, ranked)) && Descending(Place(g, ranked))
  {
    PlaceKeeps(g, ranked);
    if ranked != [] && ranked[0].Best() > g.Best() {
      var rest := Place(g, ranked[1..]);
      PlaceKeepsOrder(g, ranked[1..]);
      PlaceKeeps(g, ranked[1..]);
      forall j | 0 <= j < |rest| ensures ranked[0].Best() >= rest[j].Best() {
        assert rest[j] in rest;
      }
    }
  }

  lemma {:induction false} RankRanks(groups: seq<Group>)
    requires AllFilled(groups)
    ensures Descending(Rank(groups)) && multiset(Rank(groups)) == multiset(groups)
  {
    if groups != [] {
      assert groups == [groups[0]] + groups[1..];
      RankRanks(groups[1..]);
      PlaceKeeps(groups[0], Rank(groups[1..]));
      PlaceKeepsOrder(groups[0], Rank(groups[1..]));
    }
  }

  // ---------------------------------------------------------------- selection

  datatype Selection = Selection(selected: seq<Candidate>, ambiguity: seq<Entry>)

  const AIRWALLEX := "Airwallex"

  /** Files the provider itself ties to the expense need no comparison. */
  predicate Trusted(provider: string, candidates: seq<Candidate>) {
    provider == AIRWALLEX || provider == "Compatibility API" || forall c | c in candidates :: c.provider == AIRWALLEX
  }

  function AsEntry(g: Group): Entry
    requires g.files != []
  {
    Entry(g.key, g.Best(), seq(|g.files|, i requires 0 <= i < |g.files| => g.files[i].file))
  }

  predicate Close(top: Group, g: Group)
    requires top.files != [] && g.files != []
  {
    g.key != top.key && g.Best() >= top.Best() - MARGIN
  }

  function Rivals(top: Group, groups: seq<Group>): seq<Entry>
    requires top.files != [] && AllFilled(groups)
  {
    if groups == [] then []
    else if Close(top, groups[0]) then [AsEntry(groups[0])] + Rivals(top, groups[1..])
    else Rivals(top, groups[1..])
  }

  /** The decision on ranked groups. */
  function Decide(ranked: seq<Group>): Selection
    requires ranked != [] && AllFilled(ranked)
  {
    var top := ranked[0];
    var rivals := Rivals(top, if |ranked| > 5 then ranked[..5] else ranked);
    if rivals == [] then Selection(top.files, []) else Selection([], [AsEntry(top)] + rivals)
  }

  lemma GroupsAreFilled(candidates: seq<Candidate>)
    ensures AllFilled(Groups(candidates)) && (candidates != [] ==> Groups(candidates) != [])
  {
    GroupsAreByMessage(candidates, "");
    forall g | g in Groups(candidates) ensures g.files != [] {
      LookupFinds(Groups(candidates), g);
    }
    if candidates != [] {
      assert candidates[0].Key() in set c | c in candidates :: c.Key();
    }
  }

  function Select(provider: string, candidates: seq<Candidate>): Selection {
    if candidates == [] || Trusted(provider, candidates) then Selection(candidates, [])
    else
      GroupsAreFilled(candidates);
      Decide(Rank(Groups(candidates)))
  }

  method SelectCandidates(provider: string, candidates: seq<Candidate>) returns (r: Selection)
    ensures r == Select(provider, candidates)
  {
    if candidates == [] {
      return Selection([], []);
    }
    if Trusted(provider, candidates) {
      return Selection(candidates, []);
    }
    var groups: seq<Group> := [];
    for i := 0 to |candidates|
      invariant groups == Groups(candidates[..i])
    {
      assert candidates[..i + 1][..i] == candidates[..i];
      groups := Join(groups, candidates[i]);
    }
    assert candidates[..|candidates|] == candidates;
    GroupsAreFilled(candidates);
    var ranked := Rank(groups);
    var top := ranked[0];
    var rivals := Rivals(top, if |ranked| > 5 then ranked[..5] else ranked);
    if rivals != [] {
      return Selection([], [AsEntry(top)] + rivals);
    }
    r := Selection(top.files, []);
  }

  /** One file of the message beats every file of every other message by more than the margin. */
  ghost predicate Wins(candidates: seq<Candidate>, key: string) {
    exists c :: c in candidates && c.Key() == key && BeatsOthers(candidates, c)
  }

  ghost predicate BeatsOthers(candidates: seq<Candidate>, c: Candidate) {
    forall d | d in candidates && d.Key() != c.Key() :: c.confidence > d.confidence + MARGIN
  }

  lemma {:induction false} OfIs(candidates: seq<Candidate>, key: string)
    ensures forall c :: c in Of(candidates, key) <==> c in candidates && c.Key() == key
    ensures forall c :: multiset(Of(candidates, key))[c] == if c.Key() == key then multiset(candidates)[c] else 0
  {
    if candidates != [] {
      assert candidates == candidates[..|candidates| - 1] + [candidates[|candidates| - 1]];
      OfIs(candidates[..|candidates| - 1], key);
    }
  }

  /** A group's best against the other files, in terms of the files themselves. */
  lemma GroupOf(candidates: seq<Candidate>, g: Group)
    requires g in Groups(candidates)
    ensures g.files != [] && g.files == Of(candidates, g.key)
    ensures forall c | c in candidates && c.Key() == g.key :: c.confidence <= g.Best()
    ensures exists c :: c in candidates && c.Key() == g.key && c.confidence == g.Best()
  {
    GroupsAreByMessage(candidates, g.key);
    LookupFinds(Groups(candidates), g);
    OfIs(candidates, g.key);
    BestIsGreatest(g.files);
    var c :| c in g.files && c.confidence == g.Best();
    assert c in candidates && c.Key() == g.key;
  }

  lemma HasGroup(candidates: seq<Candidate>, c: Candidate) returns (g: Group)
    requires c in candidates
    ensures g in Groups(candidates) && g.key == c.Key()
  {
    GroupsAreByMessage(candidates, c.Key());
    assert c.Key() in Keys(Groups(candidates));
    g :| g in Groups(candidates) && g.key == c.Key();
  }

  lemma {:induction false} RivalsAre(top: Group, groups: seq<Group>)
    requires top.files != [] && AllFilled(groups)
    ensures Rivals(top, groups) == [] <==> forall g | g in groups :: !Close(top, g)
  {
    if groups != [] {
      assert groups == [groups[0]] + groups[1..];
      RivalsAre(top, groups[1..]);
    }
  }

  lemma {:induction false} EachGroupOnce(groups: seq<Group>, g: Group)
    requires WellKeyed(groups)
    ensures multiset(groups)[g] <= 1
  {
    if groups != [] {
      assert groups == [groups[0]] + groups[1..];
      EachGroupOnce(groups[1..], g);
      assert g in groups[1..] ==> g.key in Keys(groups[1..]);
    }
  }

  lemma SecondDiffers(groups: seq<Group>, ranked: seq<Group>)
    requires WellKeyed(groups) && multiset(ranked) == multiset(groups) && |ranked| > 1
    ensures ranked[0].key != ranked[1].key
  {
    var a, b := ranked[0], ranked[1];
    assert ranked == [a, b] + ranked[2..];
    assert a in multiset(ranked) && b in multiset(ranked);
    LookupFinds(groups, a);
    LookupFinds(groups, b);
    EachGroupOnce(groups, a);
    assert multiset(ranked) == multiset{a, b} + multiset(ranked[2..]);
  }

  /** Comparing the first five of the ranking is as good as comparing all of it. */
  lemma FirstFiveSuffice(groups: seq<Group>)
    requires WellKeyed(groups) && AllFilled(groups) && groups != []
    ensures var ranked := Rank(groups);
            && ranked != []
            && (Decide(ranked).ambiguity == [] <==> forall g | g in groups :: !Close(ranked[0], g))
            && (Decide(ranked).ambiguity == [] <==> Decide(ranked).selected != [])
  {
    var ranked := Rank(groups);
    RankRanks(groups);
    assert groups[0] in ranked;
    var top, five := ranked[0], if |ranked| > 5 then ranked[..5] else ranked;
    RivalsAre(top, five);
    if Rivals(top, five) == [] && |ranked| > 1 {
      SecondDiffers(groups, ranked);
      assert five[1] == ranked[1] && !Close(top, five[1]);
      forall g | g in groups ensures !Close(top, g) {
        var i :| 0 <= i < |ranked| && ranked[i] == g;
        assert i > 0 ==> ranked[1].Best() >= g.Best();
      }
    }
  }

  /**
   * Files of a mailbox are attached exactly when one message beats every other by more than the
   * margin, and then they are that message's files in input order; otherwise the choice is held.
   */
  lemma SelectsExactlyWhen(provider: string, candidates: seq<Candidate>)
    requires candidates != [] && !Trusted(provider, candidates)
    ensures var r := Select(provider, candidates);
            && (forall key | Wins(candidates, key) :: r == Selection(Of(candidates, key), []))
            && (r.selected != [] <==> exists key :: Wins(candidates, key))
            && (r.selected == [] <==> r.ambiguity != [])
  {
    var groups := Groups(candidates);
    GroupsAreFilled(candidates);
    GroupsAreByMessage(candidates, "");
    FirstFiveSuffice(groups);
    RankRanks(groups);
    var ranked := Rank(groups);
    var top := ranked[0];
    assert top in groups;
    GroupOf(candidates, top);
    if Decide(ranked).ambiguity == [] {
      TopWins(candidates, top);
    }
    forall key | Wins(candidates, key) ensures Decide(ranked) == Selection(Of(candidates, key), []) {
      WinnerIsTop(candidates, ranked, key);
    }
  }

  lemma TopWins(candidates: seq<Candidate>, top: Group)
    requires AllFilled(Groups(candidates)) && top in Groups(candidates)
    requires forall g | g in Groups(candidates) :: !Close(top, g)
    ensures Wins(candidates, top.key)
  {
    GroupOf(candidates, top);
    var c :| c in candidates && c.Key() == top.key && c.confidence == top.Best();
    forall d | d in candidates && d.Key() != c.Key() ensures c.confidence > d.confidence + MARGIN {
      var g := HasGroup(candidates, d);
      GroupOf(candidates, g);
    }
    assert BeatsOthers(candidates, c);
  }

  lemma WinnerIsTop(candidates: seq<Candidate>, ranked: seq<Group>, key: string)
    requires AllFilled(ranked) && Descending(ranked) && ranked != []
    requires forall g :: g in ranked <==> g in Groups(candidates)
    requires Wins(candidates, key)
    ensures ranked[0].key == key && forall g | g in ranked :: !Close(ranked[0], g)
  {
    var c :| c in candidates && c.Key() == key && BeatsOthers(candidates, c);
    var mine := HasGroup(candidates, c);
    GroupOf(candidates, mine);
    forall g | g in ranked && g.key != key ensures mine.Best() > g.Best() + MARGIN {
      GroupOf(candidates, g);
    }
    var i :| 0 <= i < |ranked| && ranked[i] == mine;
    assert ranked[0] in ranked;
  }

  predicate SameFiles(a: seq<Candidate>, b: seq<Candidate>) {
    multiset(a) == multiset(b)
  }

  lemma WinnersAgree(a: seq<Candidate>, b: seq<Candidate>, key: string)
    requires SameFiles(a, b) && Wins(a, key)
    ensures Wins(b, key) && multiset(Of(a, key)) == multiset(Of(b, key))
  {
    assert forall d :: d in b ==> d in multiset(a);
    var c :| c in a && c.Key() == key && BeatsOthers(a, c);
    assert c in multiset(a) && c in b && BeatsOthers(b, c);
    OfIs(a, key);
    OfIs(b, key);
  }

  lemma MailboxesAgree(provider: string, a: seq<Candidate>, b: seq<Candidate>)
    requires SameFiles(a, b)
    ensures Trusted(provider, a) == Trusted(provider, b) && (a == [] <==> b == [])
  {
    assert forall c :: c in a <==> c in multiset(a);
    assert forall c :: c in b <==> c in multiset(b);
    assert |multiset(a)| == |a| && |multiset(b)| == |b|;
  }

  /** Whether and what to attach does not depend on the order in which the files were found. */
  lemma OrderDoesNotDecide(provider: string, a: seq<Candidate>, b: seq<Candidate>)
    requires SameFiles(a, b)
    ensures SameFiles(Select(provider, a).selected, Select(provider, b).selected)
    ensures (Select(provider, a).ambiguity == []) == (Select(provider, b).ambiguity == [])
  {
    MailboxesAgree(provider, a, b);
    if a != [] && !Trusted(provider, a) {
      SelectsExactlyWhen(provider, a);
      SelectsExactlyWhen(provider, b);
      if key :| Wins(a, key) {
        WinnersAgree(a, b, key);
      } else if key :| Wins(b, key) {
        WinnersAgree(b, a, key);
      }
    }
  }

  // ---------------------------------------------------------------- the decision by the files' own fields

  /** The files come from one message, or are the same attachment where they come from none. */
  predicate SameSource(c: Candidate, d: Candidate) {
    (if c.message != "" then c.message else c.source) == (if d.message != "" then d.message else d.source)
  }

  /** The file beats every file of another source by more than a twentieth. */
  ghost predicate Leads(candidates: seq<Candidate>, c: Candidate) {
    c in candidates && forall d | d in candidates && !SameSource(c, d) :: c.confidence - d.confidence > 0.05
  }

  lemma LeadsWins(candidates: seq<Candidate>, c: Candidate)
    requires c in candidates
    ensures Leads(candidates, c) <==> BeatsOthers(candidates, c)
    ensures Leads(candidates, c) ==> Wins(candidates, c.Key())
  {
  }

  lemma {:induction false} OfIsFiltered(candidates: seq<Candidate>, c: Candidate, key: string)
    requires key == c.Key()
    ensures Of(candidates, key) == Filtered(candidates, c)
  {
    if candidates != [] {
      OfIsFiltered(candidates[..|candidates| - 1], c, key);
    }
  }

  /** The files of the same source, in input order. */
  function Filtered(candidates: seq<Candidate>, c: Candidate): seq<Candidate> {
    if candidates == [] then []
    else
      var before, d := Filtered(candidates[..|candidates| - 1], c), candidates[|candidates| - 1];
      if SameSource(c, d) then before + [d] else before
  }

  /** All files come from the provider's own listing. */
  predicate AllFromProvider(candidates: seq<Candidate>) {
    forall c | c in candidates :: c.provider == "Airwallex"
  }

  /**
   * Files of the provider are all taken. Of a mailbox's, if some file leads all those of other sources,
   * exactly the files of its source are taken, in input order; if none does, none is.
   */
  lemma SelectionIs(provider: string, candidates: seq<Candidate>)
    ensures var r := Select(provider, candidates);
            if provider in {"Airwallex", "Compatibility API"} || AllFromProvider(candidates)
            then r == Selection(candidates, [])
            else
              && (forall c | Leads(candidates, c) :: r == Selection(Filtered(candidates, c), []))
              && ((forall c :: !Leads(candidates, c)) ==> r.selected == [] && r.ambiguity != [])
  {
    if !(provider in {"Airwallex", "Compatibility API"} || AllFromProvider(candidates)) {
      assert candidates != [] && !Trusted(provider, candidates);
      SelectsExactlyWhen(provider, candidates);
      forall c | Leads(candidates, c) ensures Select(provider, candidates) == Selection(Filtered(candidates, c), []) {
        LeadsWins(candidates, c);
        OfIsFiltered(candidates, c, c.Key());
      }
      if key :| Wins(candidates, key) {
        var c :| c in candidates && c.Key() == key && BeatsOthers(candidates, c);
        LeadsWins(candidates, c);
      }
    }
  }

  // ---------------------------------------------------------------- what is shown of a held choice

  lemma {:induction false} RivalsContain(top: Group, groups: seq<Group>)
    requires top.files != [] && AllFilled(groups)
    ensures forall e :: e in Rivals(top, groups) <==> exists g :: g in groups && Close(top, g) && e == AsEntry(g)
  {
    if groups != [] {
      assert groups == [groups[0]] + groups[1..];
      RivalsContain(top, groups[1..]);
    }
  }

  /** The entry names the group's source, its best confidence and its files. */
  ghost predicate Describes(e: Entry, g: Group) {
    && e.message == g.key && |e.files| == |g.files| && (forall i | 0 <= i < |g.files| :: e.files[i] == g.files[i].file)
    && (exists c :: c in g.files && c.confidence == e.confidence)
    && forall c | c in g.files :: c.confidence <= e.confidence
  }

  lemma EntryDescribes(g: Group)
    requires g.files != []
    ensures Describes(AsEntry(g), g)
  {
    BestIsGreatest(g.files);
  }

  /** Another group's best comes within a twentieth of the top group's. */
  predicate NearTop(top: Group, g: Group)
    requires top.files != [] && g.files != []
  {
    g.key != top.key && top.Best() - g.Best() <= 0.05
  }

  lemma CloseIsNear(top: Group, groups: seq<Group>)
    requires top.files != [] && AllFilled(groups)
    ensures forall e | e in Rivals(top, groups) :: exists g :: g in groups && NearTop(top, g) && Describes(e, g)
    ensures forall g | g in groups && NearTop(top, g) :: exists e :: e in Rivals(top, groups) && Describes(e, g)
  {
    RivalsContain(top, groups);
    forall g | g in groups ensures Describes(AsEntry(g), g) {
      EntryDescribes(g);
    }
  }

  lemma TopIsBest(groups: seq<Group>)
    requires AllFilled(groups) && groups != []
    ensures var ranked := Rank(groups);
            && |ranked| == |groups| && ranked[0] in groups
            && forall g | g in groups :: g.Best() <= ranked[0].Best()
  {
    var ranked := Rank(groups);
    RankRanks(groups);
    assert |multiset(ranked)| == |ranked| && |multiset(groups)| == |groups|;
    assert ranked[0] in ranked;
    forall g | g in groups ensures g.Best() <= ranked[0].Best() {
      var i :| 0 <= i < |ranked| && ranked[i] == g;
    }
  }

  /**
   * A held choice shows a best group first and then groups within a twentieth of it; where there are no
   * more than five groups it shows all of those.
   */
  lemma HeldShowsRivals(groups: seq<Group>)
    requires WellKeyed(groups) && AllFilled(groups) && groups != [] && Decide(Rank(groups)).selected == []
    ensures var shown, top := Decide(Rank(groups)).ambiguity, Rank(groups)[0];
            && |shown| > 1 && top in groups && Describes(shown[0], top)
            && (forall g | g in groups :: g.Best() <= top.Best())
            && (forall e | e in shown[1..] :: exists g :: g in groups && NearTop(top, g) && Describes(e, g))
            && (|groups| <= 5 ==>
                  forall g | g in groups && NearTop(top, g) :: exists e :: e in shown[1..] && Describes(e, g))
  {
    var ranked := Rank(groups);
    FirstFiveSuffice(groups);
    TopIsBest(groups);
    var top, five := ranked[0], if |ranked| > 5 then ranked[..5] else ranked;
    EntryDescribes(top);
    CloseIsNear(top, five);
    assert Decide(ranked).ambiguity == [AsEntry(top)] + Rivals(top, five);
    assert Decide(ranked).ambiguity[1..] == Rivals(top, five);
  }
}

/**
 * The webhook subscription controller: whatever the remote holds, and however its calls go wrong, a
 * run that reports success leaves exactly one subscription at this site's address, the right one.
 */
module Subscriptions {
  import opened Text

  datatype Subscription = Subscription(
    id: string, url: string, version: string, events: set<string>, secret: string, updatedAt: int)

  /** What the connection wants, and what it remembers of the last success. */
  datatype Settings = Settings(
    enabled: bool, targetUrl: string, version: string, events: set<string>,
    subscriptionId: string, status: string, savedUrl: string, savedEvents: set<string>, secret: string)

  /** A delete call: applied, accepted without effect, or failed after or before taking effect. */
  datatype Deletion = Applied | Unapplied | Errored(applied: bool)

  /**
   * A create call: failed, failed after storing a subscription, or stored one and answered with an id
   * and a secret. An answer for which nothing was stored comes to the same as a failure.
   */
  datatype Creation =
    | CreateFails
    | CreateLost(stored: Subscription)
    | Creates(stored: Subscription, replyId: string, replySecret: string)

  /**
   * How the remote behaves during one run: whether the first listing, the listing after the deletes
   * and the final read fail, and what comes of each delete and of the create. A delete not mentioned
   * is applied.
   */
  datatype Behaviour = Behaviour(
    listFails: bool, relistFails: bool, readFails: bool, deletions: map<string, Deletion>, creation: Creation)
  {
    /** No call that only reads fails. */
    predicate Reads() { !listFails && !relistFails && !readFails }
  }

  datatype Action = Adopted | Verified | Created | Repaired

  datatype Outcome = Refused | Configured(action: Action, keptId: string, deleted: seq<string>)

  function StripSlashes(s: string): string {
    if s != "" && s[|s| - 1] == '/' then StripSlashes(s[..|s| - 1]) else s
  }

  function NormalUrl(url: string): string {
    StripSlashes(Strip(url))
  }

  predicate AtTarget(settings: Settings, item: Subscription) {
    NormalUrl(item.url) == NormalUrl(settings.targetUrl)
  }

  predicate MatchesTarget(settings: Settings, item: Subscription) {
    AtTarget(settings, item) && item.version == settings.version && item.events == settings.events
  }

  predicate UsableItem(settings: Settings, item: Subscription) {
    MatchesTarget(settings, item) && (item.secret != "" || settings.secret != "")
  }

  // ---------------------------------------------------------------- listings

  function Exact(settings: Settings, remote: seq<Subscription>): seq<Subscription> {
    if remote == [] then []
    else if AtTarget(settings, remote[0]) then [remote[0]] + Exact(settings, remote[1..])
    else Exact(settings, remote[1..])
  }

  function Elsewhere(settings: Settings, remote: seq<Subscription>): seq<Subscription> {
    if remote == [] then []
    else if AtTarget(settings, remote[0]) then Elsewhere(settings, remote[1..])
    else [remote[0]] + Elsewhere(settings, remote[1..])
  }

  function Usable(settings: Settings, items: seq<Subscription>): seq<Subscription> {
    if items == [] then []
    else if UsableItem(settings, items[0]) then [items[0]] + Usable(settings, items[1..])
    else Usable(settings, items[1..])
  }

  /** The first of the most recently updated. */
  function Newest(items: seq<Subscription>): (r: Subscription)
    requires items != []
    ensures r in items && forall item | item in items :: item.updatedAt <= r.updatedAt
  {
    if |items| == 1 then items[0]
    else
      var rest := Newest(items[1..]);
      if items[0].updatedAt >= rest.updatedAt then items[0] else rest
  }

  /** The stored subscription if it is among the items, else the newest. */
  function Choose(settings: Settings, items: seq<Subscription>): (r: Subscription)
    requires items != []
    ensures r in items
    ensures (exists item :: item in items && item.id == settings.subscriptionId) ==> r.id == settings.subscriptionId
    ensures (forall item | item in items :: item.id != settings.subscriptionId) ==>
              forall item | item in items :: item.updatedAt <= r.updatedAt
  {
    var stored := WithId(items, settings.subscriptionId);
    if stored != [] then stored[0] else Newest(items)
  }

  function WithId(items: seq<Subscription>, id: string): (r: seq<Subscription>)
    ensures forall item :: item in r <==> item in items && item.id == id
  {
    if items == [] then []
    else if items[0].id == id then [items[0]] + WithId(items[1..], id)
    else WithId(items[1..], id)
  }

  // ---------------------------------------------------------------- the remote's calls

  function Without(remote: seq<Subscription>, id: string): seq<Subscription> {
    if remote == [] then []
    else if remote[0].id == id then Without(remote[1..], id)
    else [remote[0]] + Without(remote[1..], id)
  }

  function DeletionOf(b: Behaviour, id: string): Deletion {
    if id in b.deletions then b.deletions[id] else Applied
  }

  function AfterDelete(remote: seq<Subscription>, b: Behaviour, id: string): seq<Subscription> {
    match DeletionOf(b, id)
    case Applied => Without(remote, id)
    case Unapplied => remote
    case Errored(applied) => if applied then Without(remote, id) else remote
  }

  /** Deletes one id after another; a failing call ends it. */
  function DeleteAll(remote: seq<Subscription>, b: Behaviour, ids: seq<string>): (seq<Subscription>, bool)
    decreases |ids|
  {
    if ids == [] then (remote, true)
    else
      var remote' := AfterDelete(remote, b, ids[0]);
      if DeletionOf(b, ids[0]).Errored? then (remote', false) else DeleteAll(remote', b, ids[1..])
  }

  /** The ids to delete: all of the items' but the kept one's, and none for an item without an id. */
  function Doomed(items: seq<Subscription>, keep: string): (ids: seq<string>)
    ensures forall id :: id in ids <==> id != "" && id != keep && exists item | item in items :: item.id == id
  {
    if items == [] then []
    else if items[0].id != "" && items[0].id != keep then [items[0].id] + Doomed(items[1..], keep)
    else Doomed(items[1..], keep)
  }

  // ---------------------------------------------------------------- ensuring and removing

  function Saved(settings: Settings, item: Subscription): Settings {
    settings.(subscriptionId := item.id, savedUrl := Else(item.url, settings.targetUrl), status := "Configured",
              savedEvents := item.events, secret := Else(item.secret, settings.secret))
  }

  /** The last leg of a run: check the kept subscription against the remote and remember it. */
  function Settle(remote: seq<Subscription>, settings: Settings, b: Behaviour, keepId: string, keepSecret: string,
                  action: Action,
                  deleted: seq<string>): (seq<Subscription>, Settings, Outcome)
  {
    if keepId == "" || (keepSecret == "" && settings.secret == "") then (remote, settings, Refused)
    else
      var found := WithId(remote, keepId);
      if b.readFails || found == [] then (remote, settings, Refused)
      else
        var verified := found[0].(secret := Else(found[0].secret, keepSecret));
        if !MatchesTarget(settings, verified) then (remote, settings, Refused)
        else (remote, Saved(settings, verified), Configured(action, keepId, deleted))
  }

  /** One run of the controller against a remote, given how the remote behaves. */
  function Ensured(remote: seq<Subscription>, settings: Settings, b: Behaviour)
    : (seq<Subscription>, Settings, Outcome)
  {
    if !settings.enabled || settings.events == {} || b.listFails then (remote, settings, Refused)
    else
      var exact := Exact(settings, remote);
      var usable := Usable(settings, exact);
      if usable != [] then
        var keep := Choose(settings, usable);
        var ids := Doomed(exact, keep.id);
        var (remote', ok) := DeleteAll(remote, b, ids);
        var remaining := Exact(settings, remote');
        if !ok || b.relistFails || |remaining| != 1 || remaining[0].id != keep.id then (remote', settings, Refused)
        else
          Settle(remote', settings, b, keep.id, keep.secret,
                 if settings.subscriptionId == "" then Adopted else Verified, ids)
      else
        var ids := Doomed(exact, "");
        var (remote', ok) := DeleteAll(remote, b, ids);
        if !ok || b.relistFails || Exact(settings, remote') != [] then (remote', settings, Refused)
        else
          match b.creation
          case CreateFails => (remote', settings, Refused)
          case CreateLost(stored) => (remote' + [stored], settings, Refused)
          case Creates(stored, replyId, replySecret) =>
            Settle(remote' + [stored], settings, b, replyId, replySecret,
                   if exact != [] then Repaired else Created, ids)
  }

  /** Removal: every subscription here, and the remembered id wherever it is; then forget it. */
  function RemovalIds(remote: seq<Subscription>, settings: Settings): set<string> {
    (set item | item in Exact(settings, remote) && item.id != "" :: item.id)
    + if settings.subscriptionId != "" then {settings.subscriptionId} else {}
  }

  function Forgotten(settings: Settings): Settings {
    settings.(subscriptionId := "", savedUrl := "", status := "Removed", savedEvents := {}, secret := "")
  }

  /** Removal deletes the ids in the given order; the order only matters when a call fails. */
  function RemovedFrom(remote: seq<Subscription>, settings: Settings, b: Behaviour, order: seq<string>)
    : (seq<Subscription>, Settings, bool)
  {
    if b.listFails then (remote, settings, false)
    else
      var (remote', ok) := DeleteAll(remote, b, order);
      if !ok || b.relistFails || Exact(settings, remote') != [] then (remote', settings, false)
      else (remote', Forgotten(settings), true)
  }

  // ---------------------------------------------------------------- facts about listings

  /** The remote gives every subscription its own id, and a new one an id of its own. */
  ghost predicate DistinctIds(remote: seq<Subscription>) {
    forall i, j | 0 <= i < j < |remote| :: remote[i].id != remote[j].id
  }

  ghost predicate FreshCreation(remote: seq<Subscription>, b: Behaviour) {
    !b.creation.CreateFails? ==> forall item | item in remote :: item.id != b.creation.stored.id
  }

  lemma {:induction false} Membership(settings: Settings, remote: seq<Subscription>)
    ensures forall item :: item in Exact(settings, remote) <==> item in remote && AtTarget(settings, item)
    ensures forall item :: item in Elsewhere(settings, remote) <==> item in remote && !AtTarget(settings, item)
    ensures forall item :: item in Usable(settings, remote) <==> item in remote && UsableItem(settings, item)
  {
    if remote != [] {
      Membership(settings, remote[1..]);
    }
  }

  lemma {:induction false} Appending(settings: Settings, remote: seq<Subscription>, item: Subscription)
    ensures Exact(settings, remote + [item])
            == Exact(settings, remote) + if AtTarget(settings, item) then [item] else []
    ensures Elsewhere(settings, remote + [item])
            == Elsewhere(settings, remote) + if AtTarget(settings, item) then [] else [item]
  {
    if remote == [] {
      assert remote + [item] == [item] && [item][1..] == [];
    } else {
      assert (remote + [item])[0] == remote[0] && (remote + [item])[1..] == remote[1..] + [item];
      Appending(settings, remote[1..], item);
    }
  }

  /** Deleting an id that is nowhere else leaves the listing elsewhere as it is. */
  lemma {:induction false} DeletingHereLeavesElsewhere(settings: Settings, remote: seq<Subscription>, id: string)
    requires forall item | item in remote && item.id == id :: AtTarget(settings, item)
    ensures Elsewhere(settings, Without(remote, id)) == Elsewhere(settings, remote)
  {
    if remote != [] {
      DeletingHereLeavesElsewhere(settings, remote[1..], id);
    }
  }

  lemma {:induction false} WithoutMembership(remote: seq<Subscription>, id: string)
    ensures forall item :: item in Without(remote, id) <==> item in remote && item.id != id
  {
    if remote != [] {
      WithoutMembership(remote[1..], id);
    }
  }

  lemma {:induction false} DeletionsLeaveElsewhere(settings: Settings, remote: seq<Subscription>, b: Behaviour,
                                                   ids: seq<string>)
    requires forall item | item in remote && item.id in ids :: AtTarget(settings, item)
    ensures Elsewhere(settings, DeleteAll(remote, b, ids).0) == Elsewhere(settings, remote)
    ensures forall item | item in DeleteAll(remote, b, ids).0 :: item in remote
    decreases |ids|
  {
    if ids != [] {
      var remote' := AfterDelete(remote, b, ids[0]);
      DeletingHereLeavesElsewhere(settings, remote, ids[0]);
      WithoutMembership(remote, ids[0]);
      DeletionsLeaveElsewhere(settings, remote', b, ids[1..]);
    }
  }

  /** With the ids distinct, the ids to delete belong to subscriptions here only. */
  lemma DoomedAreHere(settings: Settings, remote: seq<Subscription>, keep: string)
    requires DistinctIds(remote)
    ensures forall item | item in remote && item.id in Doomed(Exact(settings, remote), keep) :: AtTarget(settings, item)
  {
    Membership(settings, remote);
  }

  // ---------------------------------------------------------------- what a run guarantees

  /** Exactly one subscription here, matching, with an id, and a signing secret at hand. */
  ghost predicate InPlace(remote: seq<Subscription>, settings: Settings) {
    && settings.enabled && settings.events != {}
    && |Exact(settings, remote)| == 1
    && var item := Exact(settings, remote)[0];
    && MatchesTarget(settings, item) && item.id != ""
    && (item.secret != "" || settings.secret != "")
  }

  /** In place, and remembered under its id with a signing secret. */
  ghost predicate Remembered(remote: seq<Subscription>, settings: Settings) {
    && InPlace(remote, settings)
    && settings.subscriptionId == Exact(settings, remote)[0].id
    && settings.secret != "" && settings.status == "Configured"
  }

  lemma SettleSucceeds(remote: seq<Subscription>, settings: Settings, b: Behaviour, keepId: string, keepSecret: string,
                       action: Action, deleted: seq<string>)
    requires settings.enabled && settings.events != {} && |Exact(settings, remote)| == 1
    ensures var (remote', settings', outcome) := Settle(remote, settings, b, keepId, keepSecret, action, deleted);
            && remote' == remote
            && (outcome.Refused? ==> settings' == settings)
            && (outcome.Configured? ==>
                  Remembered(remote, settings') && settings'.subscriptionId == keepId)
  {
    Membership(settings, remote);
    var (_, settings', outcome) := Settle(remote, settings, b, keepId, keepSecret, action, deleted);
    if outcome.Configured? {
      var found := WithId(remote, keepId)[0];
      assert found in remote && AtTarget(settings, found);
      assert found in Exact(settings, remote);
      SameTarget(settings, settings', remote);
    }
  }

  lemma {:induction false} SameTarget(settings: Settings, settings': Settings, remote: seq<Subscription>)
    requires settings'.targetUrl == settings.targetUrl
    ensures Exact(settings', remote) == Exact(settings, remote)
  {
    if remote != [] {
      SameTarget(settings, settings', remote[1..]);
    }
  }

  lemma SettleRefuses(remote: seq<Subscription>, settings: Settings, b: Behaviour, keepId: string, keepSecret: string,
                      action: Action, deleted: seq<string>)
    requires Exact(settings, remote) == []
    ensures Settle(remote, settings, b, keepId, keepSecret, action, deleted) == (remote, settings, Refused)
  {
    Membership(settings, remote);
    var found := WithId(remote, keepId);
    if found != [] {
      assert found[0] in found;
      assert found[0] in remote && found[0] !in Exact(settings, remote);
    }
  }

  /**
   * Whatever the remote held before, a run that succeeds leaves exactly one subscription at the
   * callback address, matching version and events and remembered with a secret; a run that fails
   * leaves the settings as they were; and neither touches a subscription at another address, unless
   * the remote itself stores the new one elsewhere.
   */
  lemma EnsureConverges(remote: seq<Subscription>, settings: Settings, b: Behaviour)
    requires DistinctIds(remote)
    ensures var (remote', settings', outcome) := Ensured(remote, settings, b);
            && (outcome.Configured? ==>
                  && Remembered(remote', settings')
                  && Elsewhere(settings, remote') == Elsewhere(settings, remote))
            && (outcome.Refused? ==> settings' == settings)
            && (b.creation.CreateFails? || AtTarget(settings, b.creation.stored)
                ==> Elsewhere(settings, remote') == Elsewhere(settings, remote))
  {
    if settings.enabled && settings.events != {} {
      var exact := Exact(settings, remote);
      var usable := Usable(settings, exact);
      if usable != [] {
        var keep := Choose(settings, usable);
        var ids := Doomed(exact, keep.id);
        var remote' := DeleteAll(remote, b, ids).0;
        DoomedAreHere(settings, remote, keep.id);
        DeletionsLeaveElsewhere(settings, remote, b, ids);
        if |Exact(settings, remote')| == 1 {
          SettleSucceeds(remote', settings, b, keep.id, keep.secret,
                         if settings.subscriptionId == "" then Adopted else Verified, ids);
        }
      } else {
        EnsureReplaces(remote, settings, b);
      }
    }
  }

  lemma EnsureReplaces(remote: seq<Subscription>, settings: Settings, b: Behaviour)
    requires DistinctIds(remote) && settings.enabled && settings.events != {}
    requires Usable(settings, Exact(settings, remote)) == []
    ensures var (remote', settings', outcome) := Ensured(remote, settings, b);
            && (outcome.Configured? ==>
                  && Remembered(remote', settings')
                  && Elsewhere(settings, remote') == Elsewhere(settings, remote))
            && (outcome.Refused? ==> settings' == settings)
            && (b.creation.CreateFails? || AtTarget(settings, b.creation.stored)
                ==> Elsewhere(settings, remote') == Elsewhere(settings, remote))
  {
    var exact := Exact(settings, remote);
    var ids := Doomed(exact, "");
    var (cleared, ok) := DeleteAll(remote, b, ids);
    DoomedAreHere(settings, remote, "");
    DeletionsLeaveElsewhere(settings, remote, b, ids);
    if ok && Exact(settings, cleared) == [] && !b.creation.CreateFails? {
      Appending(settings, cleared, b.creation.stored);
    }
    if ok && Exact(settings, cleared) == [] && b.creation.Creates? {
      var c := b.creation;
      var action := if exact != [] then Repaired else Created;
      if AtTarget(settings, c.stored) {
        SettleSucceeds(cleared + [c.stored], settings, b, c.replyId, c.replySecret, action, ids);
      } else {
        SettleRefuses(cleared + [c.stored], settings, b, c.replyId, c.replySecret, action, ids);
      }
    }
  }

  /**
   * In place, a further run leaves the remote exactly as it is, deletes and creates nothing, and
   * succeeds if and only if its listings and its final read do.
   */
  lemma EnsureIsIdempotent(remote: seq<Subscription>, settings: Settings, b: Behaviour)
    requires InPlace(remote, settings) && DistinctIds(remote)
    ensures var (remote', settings', outcome) := Ensured(remote, settings, b);
            && remote' == remote
            && (outcome.Configured? <==> b.Reads())
            && (outcome.Configured? ==>
                  && outcome.deleted == [] && outcome.keptId == Exact(settings, remote)[0].id
                  && (settings.subscriptionId != "" ==> outcome.action == Verified))
  {
    var item := Exact(settings, remote)[0];
    assert Exact(settings, remote) == [item];
    Membership(settings, remote);
    assert item in Exact(settings, remote);
    assert Usable(settings, [item]) == [item] by {
      assert [item][1..] == [];
    }
    assert Choose(settings, [item]) == item;
    assert Doomed([item], item.id) == [] by {
      assert [item][1..] == [];
    }
    var found := WithId(remote, item.id);
    assert item in found && found[0] in found;
    SameIdSameItem(remote, item, found[0]);
  }

  lemma SameIdSameItem(remote: seq<Subscription>, a: Subscription, c: Subscription)
    requires DistinctIds(remote) && a in remote && c in remote && a.id == c.id
    ensures a == c
  {
  }

  /** Two runs in a row: once the first succeeds, the second changes nothing at the remote, however it behaves. */
  lemma SecondRunChangesNothing(remote: seq<Subscription>, settings: Settings, first: Behaviour, second: Behaviour)
    requires DistinctIds(remote) && FreshCreation(remote, first)
    ensures var (remote1, settings1, outcome1) := Ensured(remote, settings, first);
            var (remote2, settings2, outcome2) := Ensured(remote1, settings1, second);
            outcome1.Configured? ==>
              && remote2 == remote1 && (outcome2.Configured? <==> second.Reads())
              && (outcome2.Configured? ==> outcome2.deleted == [] && outcome2.action == Verified)
  {
    var (remote1, settings1, outcome1) := Ensured(remote, settings, first);
    if outcome1.Configured? {
      EnsureConverges(remote, settings, first);
      EnsureKeepsIdsDistinct(remote, settings, first);
      SameTarget(settings, settings1, remote1);
      EnsureIsIdempotent(remote1, settings1, second);
    }
  }

  lemma {:induction false} WithoutKeepsIdsDistinct(remote: seq<Subscription>, id: string)
    requires DistinctIds(remote)
    ensures DistinctIds(Without(remote, id))
  {
    if remote != [] {
      WithoutKeepsIdsDistinct(remote[1..], id);
      WithoutMembership(remote[1..], id);
      var rest := Without(remote[1..], id);
      forall j | 0 <= j < |rest| ensures rest[j].id != remote[0].id {
        assert rest[j] in rest;
      }
    }
  }

  lemma {:induction false} DeletionsKeepIdsDistinct(remote: seq<Subscription>, b: Behaviour, ids: seq<string>)
    requires DistinctIds(remote)
    ensures DistinctIds(DeleteAll(remote, b, ids).0)
    ensures forall item | item in DeleteAll(remote, b, ids).0 :: item in remote
    decreases |ids|
  {
    if ids != [] {
      WithoutKeepsIdsDistinct(remote, ids[0]);
      WithoutMembership(remote, ids[0]);
      DeletionsKeepIdsDistinct(AfterDelete(remote, b, ids[0]), b, ids[1..]);
    }
  }

  lemma EnsureKeepsIdsDistinct(remote: seq<Subscription>, settings: Settings, b: Behaviour)
    requires DistinctIds(remote) && FreshCreation(remote, b)
    ensures DistinctIds(Ensured(remote, settings, b).0)
  {
    var exact := Exact(settings, remote);
    var usable := Usable(settings, exact);
    if usable != [] {
      DeletionsKeepIdsDistinct(remote, b, Doomed(exact, Choose(settings, usable).id));
    } else {
      DeletionsKeepIdsDistinct(remote, b, Doomed(exact, ""));
    }
  }

  // ---------------------------------------------------------------- what a run keeps, deletes and remembers

  /** A url without the blanks around it and the slashes behind it. */
  lemma {:induction false} NoSlashes(s: string) returns (slashes: string)
    ensures s == StripSlashes(s) + slashes && forall c | c in slashes :: c == '/'
    ensures StripSlashes(s) == "" || StripSlashes(s)[|StripSlashes(s)| - 1] != '/'
  {
    if s != "" && s[|s| - 1] == '/' {
      slashes := NoSlashes(s[..|s| - 1]);
      slashes := slashes + "/";
    } else {
      slashes := "";
    }
  }

  lemma NormalUrlMeans(url: string)
    ensures exists slashes: string :: Strip(url) == NormalUrl(url) + slashes && forall c | c in slashes :: c == '/'
    ensures NormalUrl(url) == "" || NormalUrl(url)[|NormalUrl(url)| - 1] != '/'
  {
    var slashes := NoSlashes(Strip(url));
    assert Strip(url) == NormalUrl(url) + slashes;
  }

  /** The item is at this site's address. */
  predicate IsHere(settings: Settings, item: Subscription) {
    NormalUrl(item.url) == NormalUrl(settings.targetUrl)
  }

  /** The item is what the connection wants, and its signing secret is known. */
  predicate IsUsable(settings: Settings, item: Subscription) {
    && IsHere(settings, item) && item.version == settings.version && item.events == settings.events
    && (item.secret != "" || settings.secret != "")
  }

  ghost predicate SomeUsable(settings: Settings, remote: seq<Subscription>) {
    exists item :: item in remote && IsUsable(settings, item)
  }

  /** The item to keep: the remembered one if it is usable, else one that no usable one is newer than. */
  ghost predicate IsChosen(settings: Settings, remote: seq<Subscription>, keep: Subscription) {
    && keep in remote && IsUsable(settings, keep)
    && ((exists item :: item in remote && IsUsable(settings, item) && item.id == settings.subscriptionId)
        ==> keep.id == settings.subscriptionId)
    && ((forall item | item in remote && IsUsable(settings, item) :: item.id != settings.subscriptionId)
        ==> forall item | item in remote && IsUsable(settings, item) :: item.updatedAt <= keep.updatedAt)
  }

  lemma ChoiceIsChosen(settings: Settings, remote: seq<Subscription>)
    ensures Usable(settings, Exact(settings, remote)) != [] <==> SomeUsable(settings, remote)
    ensures var usable := Usable(settings, Exact(settings, remote));
            usable != [] ==> IsChosen(settings, remote, Choose(settings, usable))
  {
    var exact := Exact(settings, remote);
    Membership(settings, remote);
    Membership(settings, exact);
    EmptyOrInhabited(Usable(settings, exact));
    assert forall item :: item in Usable(settings, exact) <==> item in remote && IsUsable(settings, item);
  }

  /** What a run that succeeds kept and deleted: it creates only where nothing is usable. */
  ghost predicate KeptRightly(remote: seq<Subscription>, settings: Settings, b: Behaviour, remote': seq<Subscription>,
                              outcome: Outcome)
    requires outcome.Configured?
  {
    if SomeUsable(settings, remote) then
      && (exists keep :: keep in remote' && keep.id == outcome.keptId && IsChosen(settings, remote, keep))
      && (forall item | item in remote' :: item in remote)
      && outcome.action == (if settings.subscriptionId == "" then Adopted else Verified)
      && forall id :: id in outcome.deleted <==>
           id != "" && id != outcome.keptId && exists item :: item in remote && IsHere(settings, item) && item.id == id
    else
      && b.creation.Creates? && b.creation.stored in remote' && outcome.keptId == b.creation.replyId
      && outcome.action == (if exists item :: item in remote && IsHere(settings, item) then Repaired else Created)
      && forall id :: id in outcome.deleted <==>
           id != "" && exists item :: item in remote && IsHere(settings, item) && item.id == id
  }

  lemma SettleKeeps(remote: seq<Subscription>, settings: Settings, b: Behaviour, keepId: string, keepSecret: string,
                    action: Action, deleted: seq<string>)
    ensures var (remote', settings', outcome) := Settle(remote, settings, b, keepId, keepSecret, action, deleted);
            remote' == remote && (outcome.Configured? ==> outcome == Configured(action, keepId, deleted))
  {
  }

  lemma AdoptionKeepsRightly(remote: seq<Subscription>, settings: Settings, b: Behaviour)
    requires DistinctIds(remote) && SomeUsable(settings, remote)
    ensures var (remote', settings', outcome) := Ensured(remote, settings, b);
            outcome.Configured? ==> KeptRightly(remote, settings, b, remote', outcome)
  {
    ChoiceIsChosen(settings, remote);
    var (remote', settings', outcome) := Ensured(remote, settings, b);
    if outcome.Configured? {
      var exact := Exact(settings, remote);
      var keep := Choose(settings, Usable(settings, exact));
      var ids := Doomed(exact, keep.id);
      var left := DeleteAll(remote, b, ids).0;
      Membership(settings, remote);
      Membership(settings, left);
      DeletionsKeepIdsDistinct(remote, b, ids);
      SettleKeeps(left, settings, b, keep.id, keep.secret,
                  if settings.subscriptionId == "" then Adopted else Verified, ids);
      var item := Exact(settings, left)[0];
      assert item in Exact(settings, left) && item in remote;
      SameIdSameItem(remote, item, keep);
    }
  }

  lemma ReplacementKeepsRightly(remote: seq<Subscription>, settings: Settings, b: Behaviour)
    requires DistinctIds(remote) && !SomeUsable(settings, remote)
    ensures var (remote', settings', outcome) := Ensured(remote, settings, b);
            outcome.Configured? ==> KeptRightly(remote, settings, b, remote', outcome)
  {
    ChoiceIsChosen(settings, remote);
    var (remote', settings', outcome) := Ensured(remote, settings, b);
    if outcome.Configured? {
      var exact := Exact(settings, remote);
      var ids := Doomed(exact, "");
      var left := DeleteAll(remote, b, ids).0;
      var action := if exact != [] then Repaired else Created;
      Membership(settings, remote);
      EmptyOrInhabited(exact);
      SettleKeeps(left + [b.creation.stored], settings, b, b.creation.replyId, b.creation.replySecret, action, ids);
    }
  }

  /**
   * A run that succeeds keeps the remembered subscription if it is usable, else a newest usable one, and
   * deletes the others here; it creates one if and only if none was usable.
   */
  lemma EnsureKeepsTheChosen(remote: seq<Subscription>, settings: Settings, b: Behaviour)
    requires DistinctIds(remote)
    ensures var (remote', settings', outcome) := Ensured(remote, settings, b);
            outcome.Configured? ==> KeptRightly(remote, settings, b, remote', outcome)
  {
    if SomeUsable(settings, remote) {
      AdoptionKeepsRightly(remote, settings, b);
    } else {
      ReplacementKeepsRightly(remote, settings, b);
    }
  }

  /** Two usable subscriptions, the older one remembered: the run keeps it and deletes the newer. */
  lemma RememberedIsKept(settings: Settings, w1: Subscription, w2: Subscription, b: Behaviour)
    requires settings.subscriptionId == w1.id != w2.id && w1.updatedAt < w2.updatedAt
    requires IsUsable(settings, w1) && IsUsable(settings, w2)
    ensures var (remote', settings', outcome) := Ensured([w1, w2], settings, b);
            outcome.Configured? ==> outcome.keptId == w1.id && w1 in remote'
  {
    EnsureKeepsTheChosen([w1, w2], settings, b);
    assert w1 in [w1, w2];
  }

  /** The one subscription here is as wanted, and it is what the settings remember. */
  ghost predicate RemembersTheOne(remote: seq<Subscription>, settings: Settings, settings': Settings, keptId: string) {
    exists item ::
      && item in remote && IsHere(settings, item) && item.id == keptId != ""
      && (forall other | other in remote && IsHere(settings, other) :: other == item)
      && item.version == settings.version && item.events == settings.events
      && RemembersItem(settings, settings', item)
  }

  /** What a run that succeeds remembers, field by field, of the one subscription that is then here. */
  lemma EnsureRemembersTheKept(remote: seq<Subscription>, settings: Settings, b: Behaviour)
    requires DistinctIds(remote)
    ensures var (remote', settings', outcome) := Ensured(remote, settings, b);
            outcome.Configured? ==> RemembersTheOne(remote', settings, settings', outcome.keptId)
  {
    EnsureConverges(remote, settings, b);
    EnsureSaves(remote, settings, b);
    var (remote', settings', outcome) := Ensured(remote, settings, b);
    if outcome.Configured? {
      var item :| item in remote' && IsHere(settings, item) && item.id == outcome.keptId
          && RemembersItem(settings, settings', item);
      TheOneHere(remote', settings', item);
    }
  }

  lemma TheOneHere(remote: seq<Subscription>, settings: Settings, item: Subscription)
    requires Remembered(remote, settings) && item in remote && IsHere(settings, item)
    ensures item.id != "" && item.version == settings.version && item.events == settings.events
    ensures forall other | other in remote && IsHere(settings, other) :: other == item
  {
    Membership(settings, remote);
    assert forall other | other in Exact(settings, remote) :: other == Exact(settings, remote)[0];
  }

  /** The settings after the run: the item's id, url and events, and its secret or else the one that was known. */
  predicate RemembersItem(settings: Settings, settings': Settings, item: Subscription) {
    && settings'.subscriptionId == item.id
    && settings'.savedUrl == (if item.url != "" then item.url else settings.targetUrl)
    && settings'.savedEvents == item.events && settings'.status == "Configured"
    && settings'.secret != "" && (item.secret != "" ==> settings'.secret == item.secret)
    && settings'.enabled == settings.enabled && settings'.targetUrl == settings.targetUrl
    && settings'.version == settings.version && settings'.events == settings.events
  }

  lemma EnsureSaves(remote: seq<Subscription>, settings: Settings, b: Behaviour)
    requires DistinctIds(remote)
    ensures var (remote', settings', outcome) := Ensured(remote, settings, b);
            outcome.Configured? ==>
              exists item :: item in remote' && IsHere(settings, item) && item.id == outcome.keptId
                             && RemembersItem(settings, settings', item)
  {
  }

  lemma {:induction false} AllDeleted(remote: seq<Subscription>, b: Behaviour, ids: seq<string>)
    ensures DeleteAll(remote, b, ids).1 <==> forall id | id in ids :: !(id in b.deletions && b.deletions[id].Errored?)
    decreases |ids|
  {
    if ids != [] {
      assert forall id :: id in ids <==> id == ids[0] || id in ids[1..];
      AllDeleted(AfterDelete(remote, b, ids[0]), b, ids[1..]);
    }
  }

  /** A run succeeds only on an enabled connection that wants events, and only if none of its calls failed. */
  lemma SuccessMeansNoFailure(remote: seq<Subscription>, settings: Settings, b: Behaviour)
    ensures var outcome := Ensured(remote, settings, b).2;
            outcome.Configured? ==>
              && settings.enabled && settings.events != {} && b.Reads()
              && forall id | id in outcome.deleted :: !(id in b.deletions && b.deletions[id].Errored?)
  {
    var exact := Exact(settings, remote);
    var usable := Usable(settings, exact);
    var ids := Doomed(exact, if usable != [] then Choose(settings, usable).id else "");
    AllDeleted(remote, b, ids);
  }

  // ---------------------------------------------------------------- progress

  /**
   * No read fails, every delete is applied and a create stores what was asked for and answers with
   * its id and a secret.
   */
  predicate Cooperates(settings: Settings, b: Behaviour) {
    && b.Reads() && (forall id | id in b.deletions :: b.deletions[id] == Applied)
    && b.creation.Creates?
    && MatchesTarget(settings, b.creation.stored)
    && b.creation.stored.id == b.creation.replyId != ""
    && b.creation.replySecret != ""
  }

  lemma {:induction false} AppliedDeletions(remote: seq<Subscription>, b: Behaviour, ids: seq<string>)
    requires forall id | id in b.deletions :: b.deletions[id] == Applied
    ensures DeleteAll(remote, b, ids).1
    ensures forall item :: item in DeleteAll(remote, b, ids).0 <==> item in remote && item.id !in ids
    decreases |ids|
  {
    if ids != [] {
      WithoutMembership(remote, ids[0]);
      AppliedDeletions(Without(remote, ids[0]), b, ids[1..]);
    }
  }

  lemma SingleExact(settings: Settings, remote: seq<Subscription>, keep: Subscription)
    requires DistinctIds(remote) && keep in remote && AtTarget(settings, keep)
    requires forall item | item in remote && AtTarget(settings, item) :: item.id == keep.id
    ensures Exact(settings, remote) == [keep]
  {
    Membership(settings, remote);
    var exact := Exact(settings, remote);
    forall item | item in exact ensures item == keep {
      SameIdSameItem(remote, item, keep);
    }
    ExactIsDistinct(settings, remote);
    assert keep in exact;
    assert forall j | 0 <= j < |exact| :: exact[j] in exact && exact[j] == keep;
    assert |exact| > 1 ==> exact[0].id == exact[1].id;
  }

  lemma {:induction false} ExactIsDistinct(settings: Settings, remote: seq<Subscription>)
    requires DistinctIds(remote)
    ensures DistinctIds(Exact(settings, remote))
  {
    if remote != [] {
      ExactIsDistinct(settings, remote[1..]);
      Membership(settings, remote[1..]);
      var rest := Exact(settings, remote[1..]);
      forall j | 0 <= j < |rest| ensures rest[j].id != remote[0].id {
        assert rest[j] in rest;
      }
    }
  }

  lemma AdoptionSucceeds(remote: seq<Subscription>, settings: Settings, b: Behaviour)
    requires settings.enabled && settings.events != {} && DistinctIds(remote) && Cooperates(settings, b)
    requires forall item | item in remote :: item.id != ""
    requires Usable(settings, Exact(settings, remote)) != []
    ensures Ensured(remote, settings, b).2.Configured?
  {
    var exact := Exact(settings, remote);
    Membership(settings, remote);
    Membership(settings, exact);
    var keep := Choose(settings, Usable(settings, exact));
    var ids := Doomed(exact, keep.id);
    var remote' := DeleteAll(remote, b, ids).0;
    AppliedDeletions(remote, b, ids);
    DeletionsKeepIdsDistinct(remote, b, ids);
    assert forall item | item in remote' && AtTarget(settings, item) :: item in exact && item.id == keep.id;
    SingleExact(settings, remote', keep);
    SettleAccepts(remote', settings, b, keep, keep.secret);
  }

  lemma EmptyOrInhabited(items: seq<Subscription>)
    ensures items == [] || exists item :: item in items
  {
    if items != [] {
      assert items[0] in items;
    }
  }

  lemma ReplacementSucceeds(remote: seq<Subscription>, settings: Settings, b: Behaviour)
    requires settings.enabled && settings.events != {} && DistinctIds(remote) && FreshCreation(remote, b)
    requires Cooperates(settings, b) && forall item | item in remote :: item.id != ""
    requires Usable(settings, Exact(settings, remote)) == []
    ensures Ensured(remote, settings, b).2.Configured?
  {
    var exact := Exact(settings, remote);
    var ids := Doomed(exact, "");
    var remote' := DeleteAll(remote, b, ids).0;
    Membership(settings, remote);
    AppliedDeletions(remote, b, ids);
    DeletionsKeepIdsDistinct(remote, b, ids);
    Membership(settings, remote');
    forall item | item in remote && AtTarget(settings, item) ensures item.id in ids {
      assert item in exact;
    }
    EmptyOrInhabited(Exact(settings, remote'));
    SettleAccepts(remote' + [b.creation.stored], settings, b, b.creation.stored, b.creation.replySecret);
  }

  /** Against a remote that cooperates the run succeeds, whatever an earlier, failed run left behind. */
  lemma EnsureSucceeds(remote: seq<Subscription>, settings: Settings, b: Behaviour)
    requires settings.enabled && settings.events != {} && DistinctIds(remote) && FreshCreation(remote, b)
    requires Cooperates(settings, b) && forall item | item in remote :: item.id != ""
    ensures Ensured(remote, settings, b).2.Configured?
  {
    if Usable(settings, Exact(settings, remote)) != [] {
      AdoptionSucceeds(remote, settings, b);
    } else {
      ReplacementSucceeds(remote, settings, b);
    }
  }

  lemma SettleAccepts(remote: seq<Subscription>, settings: Settings, b: Behaviour, keep: Subscription, secret: string)
    requires DistinctIds(remote) && keep in remote && MatchesTarget(settings, keep) && keep.id != ""
    requires secret != "" || settings.secret != ""
    requires !b.readFails
    ensures forall action, deleted :: Settle(remote, settings, b, keep.id, secret, action, deleted).2.Configured?
  {
    var found := WithId(remote, keep.id);
    assert keep in found && found[0] in found;
    SameIdSameItem(remote, keep, found[0]);
  }

  // ---------------------------------------------------------------- removal

  /** The remembered id is that of a subscription at another address. */
  predicate RemembersElsewhere(remote: seq<Subscription>, settings: Settings) {
    && settings.subscriptionId != ""
    && exists item | item in Elsewhere(settings, remote) :: item.id == settings.subscriptionId
  }

  ghost predicate Enumerates(order: seq<string>, ids: set<string>) {
    forall id :: id in order <==> id in ids
  }

  lemma {:induction false} SomeOrder(ids: set<string>) returns (order: seq<string>)
    ensures Enumerates(order, ids)
  {
    if ids == {} {
      order := [];
    } else {
      var id :| id in ids;
      order := SomeOrder(ids - {id});
      order := [id] + order;
    }
  }

  /** With the remembered id here or nowhere, removal deletes nothing elsewhere, whichever of its calls fail. */
  lemma RemovalStaysHere(remote: seq<Subscription>, settings: Settings, b: Behaviour, order: seq<string>)
    requires DistinctIds(remote) && Enumerates(order, RemovalIds(remote, settings))
    requires !RemembersElsewhere(remote, settings)
    ensures Elsewhere(settings, RemovedFrom(remote, settings, b, order).0) == Elsewhere(settings, remote)
  {
    Membership(settings, remote);
    forall item | item in remote && item.id in order ensures AtTarget(settings, item) {
      if item.id != settings.subscriptionId || settings.subscriptionId == "" {
        var here :| here in Exact(settings, remote) && here.id == item.id;
        SameIdSameItem(remote, item, here);
      } else {
        assert item in Elsewhere(settings, remote) <==> !AtTarget(settings, item);
      }
    }
    DeletionsLeaveElsewhere(settings, remote, b, order);
  }

  ghost predicate SparesOthers(remote: seq<Subscription>, settings: Settings, b: Behaviour, order: seq<string>) {
    Elsewhere(settings, RemovedFrom(remote, settings, b, order).0) == Elsewhere(settings, remote)
  }

  /**
   * Removal leaves the other addresses alone, however the remote behaves and in whatever order the
   * deletes come, if and only if the remembered id is not that of a subscription at another address.
   */
  lemma RemovalSparesOthersExactlyWhen(remote: seq<Subscription>, settings: Settings)
    requires DistinctIds(remote)
    ensures (forall b: Behaviour, order: seq<string> | Enumerates(order, RemovalIds(remote, settings)) ::
               SparesOthers(remote, settings, b, order))
            <==> !RemembersElsewhere(remote, settings)
  {
    if RemembersElsewhere(remote, settings) {
      var b := Behaviour(false, false, false, map[], CreateFails);
      var order := SomeOrder(RemovalIds(remote, settings));
      var item :| item in Elsewhere(settings, remote) && item.id == settings.subscriptionId;
      AppliedDeletions(remote, b, order);
      Membership(settings, DeleteAll(remote, b, order).0);
      assert item !in Elsewhere(settings, RemovedFrom(remote, settings, b, order).0);
      assert !SparesOthers(remote, settings, b, order);
    } else {
      forall b: Behaviour, order: seq<string> | Enumerates(order, RemovalIds(remote, settings))
        ensures SparesOthers(remote, settings, b, order)
      {
        RemovalStaysHere(remote, settings, b, order);
      }
    }
  }

  /** A removal succeeds only if none of its calls failed. */
  lemma RemovalMeansNoFailure(remote: seq<Subscription>, settings: Settings, b: Behaviour, order: seq<string>)
    ensures RemovedFrom(remote, settings, b, order).2 ==>
              && !b.listFails && !b.relistFails
              && forall id | id in order :: !(id in b.deletions && b.deletions[id].Errored?)
  {
    AllDeleted(remote, b, order);
  }

  /** At a remote that cooperates removal succeeds, and only the other addresses' subscriptions are left. */
  lemma RemovalSucceeds(remote: seq<Subscription>, settings: Settings, b: Behaviour, order: seq<string>)
    requires Enumerates(order, RemovalIds(remote, settings)) && forall item | item in remote :: item.id != ""
    requires b.Reads() && forall id | id in b.deletions :: b.deletions[id] == Applied
    ensures var (remote', _, ok) := RemovedFrom(remote, settings, b, order);
            && ok
            && forall item :: item in remote' <==>
                 item in remote && !IsHere(settings, item) && item.id !in RemovalIds(remote, settings)
  {
    AppliedDeletions(remote, b, order);
    Membership(settings, remote);
    var left := DeleteAll(remote, b, order).0;
    Membership(settings, left);
    EmptyOrInhabited(Exact(settings, left));
    forall item | item in remote && IsHere(settings, item) ensures item.id in order {
      assert item in Exact(settings, remote);
    }
  }

  lemma BareUrl(url: string)
    requires url != "" && !IsSpace(url[0]) && !IsSpace(url[|url| - 1]) && url[|url| - 1] != '/'
    ensures NormalUrl(url) == url
  {
  }

  /** A connection that remembers a subscription from before its address changed, at a remote that still has it. */
  lemma RemovalReachesAnotherAddress()
    ensures exists remote: seq<Subscription>, settings: Settings, b: Behaviour, order: seq<string> ::
              && DistinctIds(remote) && RemembersElsewhere(remote, settings)
              && Enumerates(order, RemovalIds(remote, settings))
              && RemovedFrom(remote, settings, b, order).0 == [] && Elsewhere(settings, remote) == remote != []
  {
    var item := Subscription("w1", "https://old", "2025-11-11", {"spend.expense.approved"}, "s", 1);
    var settings := Settings(true, "https://new", item.version, item.events, "w1", "Configured", item.url,
                             item.events, "s");
    var b := Behaviour(false, false, false, map[], CreateFails);
    BareUrl("https://old");
    BareUrl("https://new");
    assert "https://old"[8] != "https://new"[8] && !AtTarget(settings, item);
    assert [item][1..] == [] && ["w1"][1..] == [];
    assert Elsewhere(settings, [item]) == [item] + Elsewhere(settings, []) == [item];
    assert Exact(settings, [item]) == Exact(settings, []) == [];
    assert RemovalIds([item], settings) == {"w1"};
    assert Without([item], "w1") == Without([], "w1") == [];
    assert DeleteAll([item], b, ["w1"]) == DeleteAll([], b, []) == ([], true);
    assert item in Elsewhere(settings, [item]);
    assert RemovedFrom([item], settings, b, ["w1"]).0 == [];
  }

  // ---------------------------------------------------------------- the controller in place

  class Controller {
    var remote: seq<Subscription>
    var settings: Settings

    constructor (remote: seq<Subscription>, settings: Settings)
      ensures this.remote == remote && this.settings == settings
    {
      this.remote, this.settings := remote, settings;
    }

    method DeleteSubscription(id: string, b: Behaviour) returns (ok: bool)
      modifies this`remote
      ensures remote == AfterDelete(old(remote), b, id) && ok == !DeletionOf(b, id).Errored?
    {
      match DeletionOf(b, id) {
        case Applied => remote := Without(remote, id);
        case Unapplied =>
        case Errored(applied) => if applied { remote := Without(remote, id); }
      }
      ok := !DeletionOf(b, id).Errored?;
    }

    /** Deletes every item that has an id other than the kept one; a failing call ends the run. */
    method DeleteItems(items: seq<Subscription>, keep: string, b: Behaviour) returns (ok: bool, deleted: seq<string>)
      modifies this`remote
      ensures (remote, ok) == DeleteAll(old(remote), b, Doomed(items, keep))
      ensures ok ==> deleted == Doomed(items, keep)
    {
      deleted := [];
      assert items[0..] == items;
      for k := 0 to |items|
        invariant DeleteAll(old(remote), b, Doomed(items, keep)) == DeleteAll(remote, b, Doomed(items[k..], keep))
        invariant Doomed(items, keep) == deleted + Doomed(items[k..], keep)
      {
        assert items[k..][1..] == items[k + 1..];
        var id := items[k].id;
        if id != "" && id != keep {
          ghost var before, rest := remote, Doomed(items[k + 1..], keep);
          assert ([id] + rest)[1..] == rest;
          assert deleted + ([id] + rest) == (deleted + [id]) + rest;
          ok := DeleteSubscription(id, b);
          if !ok {
            return false, deleted;
          }
          deleted := deleted + [id];
        }
      }
      assert items[|items|..] == [];
      ok := true;
    }

    method EnsureSubscription(b: Behaviour) returns (outcome: Outcome)
      modifies this
      ensures (remote, settings, outcome) == Ensured(old(remote), old(settings), b)
    {
      if !settings.enabled || settings.events == {} || b.listFails {
        return Refused;
      }
      var exact := Exact(settings, remote);
      var usable := Usable(settings, exact);
      var keepId, keepSecret, action := "", "", Created;
      var ok, deleted: seq<string>;
      if usable != [] {
        var keep := Choose(settings, usable);
        ok, deleted := DeleteItems(exact, keep.id, b);
        if !ok {
          return Refused;
        }
        var remaining := Exact(settings, remote);
        if b.relistFails || |remaining| != 1 || remaining[0].id != keep.id {
          return Refused;
        }
        keepId, keepSecret := keep.id, keep.secret;
        action := if settings.subscriptionId == "" then Adopted else Verified;
      } else {
        ok, deleted := DeleteItems(exact, "", b);
        if !ok || b.relistFails || Exact(settings, remote) != [] {
          return Refused;
        }
        if b.creation.CreateFails? {
          return Refused;
        }
        remote := remote + [b.creation.stored];
        if b.creation.CreateLost? {
          return Refused;
        }
        keepId, keepSecret := b.creation.replyId, b.creation.replySecret;
        action := if exact != [] then Repaired else Created;
      }
      if keepId == "" || (keepSecret == "" && settings.secret == "") {
        return Refused;
      }
      var found := WithId(remote, keepId);
      if b.readFails || found == [] {
        return Refused;
      }
      var verified := found[0].(secret := Else(found[0].secret, keepSecret));
      if !MatchesTarget(settings, verified) {
        return Refused;
      }
      SaveMetadata(verified);
      outcome := Configured(action, keepId, deleted);
    }

    method SaveMetadata(item: Subscription)
      modifies this`settings
      ensures settings == Saved(old(settings), item)
    {
      settings := settings.(subscriptionId := item.id, savedUrl := Else(item.url, settings.targetUrl));
      settings := settings.(status := "Configured", savedEvents := item.events);
      if item.secret != "" {
        settings := settings.(secret := item.secret);
      }
    }

    method RemoveSubscription(b: Behaviour, order: seq<string>) returns (ok: bool)
      requires Enumerates(order, RemovalIds(remote, settings))
      modifies this
      ensures (remote, settings, ok) == RemovedFrom(old(remote), old(settings), b, order)
      ensures ok ==>
                && (forall item | item in remote :: !IsHere(settings, item))
                && settings == old(settings).(subscriptionId := "", secret := "", savedUrl := "", savedEvents := {},
                                              status := "Removed")
      ensures !ok ==> settings == old(settings)
    {
      if b.listFails {
        return false;
      }
      assert order[0..] == order;
      for k := 0 to |order|
        invariant settings == old(settings)
        invariant DeleteAll(old(remote), b, order) == DeleteAll(remote, b, order[k..])
      {
        assert order[k..][0] == order[k] && order[k..][1..] == order[k + 1..];
        ok := DeleteSubscription(order[k], b);
        if !ok {
          return;
        }
      }
      assert order[|order|..] == [];
      if b.relistFails || Exact(settings, remote) != [] {
        return false;
      }
      Membership(settings, remote);
      settings := Forgotten(settings);
      ok := true;
    }
  }
}

/** Attaching the selected receipts: a file goes on unless its attachment or its content is there. */
module ReceiptFiles {
  import opened Text
  import opened Receipts

  datatype File = File(target: string, hash: string, attachment: string, message: string)

  datatype Outcome = Attached | Skipped | Failed

  function Cut(s: string): string { if |s| > 140 then s[..140] else s }

  function AttachmentId(c: Candidate): string { Cut(Else(c.attachment, c.source)) }

  /** Some file, of whatever target, has the candidate's attachment id. */
  predicate IdTaken(files: seq<File>, c: Candidate) {
    AttachmentId(c) != "" && exists f :: f in files && f.attachment == AttachmentId(c)
  }

  predicate OnTarget(files: seq<File>, target: string, hash: string) {
    exists f :: f in files && f.hash == hash && f.target == target
  }

  predicate Present(files: seq<File>, target: string, c: Candidate) {
    IdTaken(files, c) || OnTarget(files, target, c.hash)
  }

  function Judge(files: seq<File>, target: string, c: Candidate, unsaved: set<Candidate>): Outcome {
    if Present(files, target, c) then Skipped else if c in unsaved then Failed else Attached
  }

  function AsFile(target: string, c: Candidate): File {
    File(target, c.hash, AttachmentId(c), Cut(c.message))
  }

  function Attach(files: seq<File>, target: string, c: Candidate, unsaved: set<Candidate>): seq<File> {
    if Judge(files, target, c, unsaved) == Attached then files + [AsFile(target, c)] else files
  }

  function AttachAll(files: seq<File>, target: string, selected: seq<Candidate>, unsaved: set<Candidate>): seq<File> {
    if selected == [] then files
    else Attach(AttachAll(files, target, selected[..|selected| - 1], unsaved), target, selected[|selected| - 1],
                unsaved)
  }

  /** What comes of each of the selected files, in order. */
  function Outcomes(files: seq<File>, target: string, selected: seq<Candidate>, unsaved: set<Candidate>): seq<Outcome> {
    if selected == [] then []
    else
      var before, last := selected[..|selected| - 1], selected[|selected| - 1];
      Outcomes(files, target, before, unsaved)
      + [Judge(AttachAll(files, target, before, unsaved), target, last, unsaved)]
  }

  /** How many of the outcomes are of each kind. */
  predicate Counted(outcomes: seq<Outcome>, attached: nat, skipped: nat, failed: nat) {
    && multiset(outcomes)[Attached] == attached && multiset(outcomes)[Skipped] == skipped
    && multiset(outcomes)[Failed] == failed
  }

  lemma OneOutcomeMore(files: seq<File>, target: string, selected: seq<Candidate>, unsaved: set<Candidate>, i: nat,
                       attached: nat, skipped: nat, failed: nat)
    requires i < |selected| && Counted(Outcomes(files, target, selected[..i], unsaved), attached, skipped, failed)
    ensures var outcome := Judge(AttachAll(files, target, selected[..i], unsaved), target, selected[i], unsaved);
            Counted(Outcomes(files, target, selected[..i + 1], unsaved),
                    attached + (if outcome == Attached then 1 else 0), skipped + (if outcome == Skipped then 1 else 0),
                    failed + (if outcome == Failed then 1 else 0))
  {
    assert selected[..i + 1][..i] == selected[..i];
  }

  lemma {:induction false} CountsAddUp(files: seq<File>, target: string, selected: seq<Candidate>,
                                       unsaved: set<Candidate>,
                                       attached: nat, skipped: nat, failed: nat)
    requires Counted(Outcomes(files, target, selected, unsaved), attached, skipped, failed)
    ensures |AttachAll(files, target, selected, unsaved)| == |files| + attached
    ensures attached + skipped + failed == |selected|
  {
    if selected != [] {
      var before, last := selected[..|selected| - 1], selected[|selected| - 1];
      var outcome := Judge(AttachAll(files, target, before, unsaved), target, last, unsaved);
      CountsAddUp(files, target, before, unsaved,
                  attached - (if outcome == Attached then 1 else 0), skipped - (if outcome == Skipped then 1 else 0),
                  failed - (if outcome == Failed then 1 else 0));
    }
  }

  /** The File documents of the site. `unsaved` holds the candidates whose content cannot be stored. */
  class Store {
    var files: seq<File>

    constructor (files: seq<File>)
      ensures this.files == files
    {
      this.files := files;
    }

    method AttachCandidate(c: Candidate, target: string, unsaved: set<Candidate>) returns (outcome: Outcome)
      modifies this
      ensures outcome == Judge(old(files), target, c, unsaved)
      ensures files == Attach(old(files), target, c, unsaved)
    {
      var attachment := AttachmentId(c);
      if attachment != "" && exists f :: f in files && f.attachment == attachment {
        return Skipped;
      }
      if exists f :: f in files && f.hash == c.hash && f.target == target {
        return Skipped;
      }
      if c in unsaved {
        return Failed;
      }
      files := files + [File(target, c.hash, attachment, Cut(c.message))];
      outcome := Attached;
    }

    method AttachSelected(selected: seq<Candidate>, target: string, unsaved: set<Candidate>)
      returns (attached: nat, skipped: nat, errors: seq<string>, status: string)
      modifies this
      ensures files == AttachAll(old(files), target, selected, unsaved)
      ensures |files| == |old(files)| + attached
      ensures Counted(Outcomes(old(files), target, selected, unsaved), attached, skipped, |errors|)
      ensures attached + skipped + |errors| == |selected|
      ensures status == if attached + skipped > 0 then "attached" else if errors != [] then "error" else "missing"
    {
      attached, skipped, errors, status := 0, 0, [], "missing";
      for i := 0 to |selected|
        invariant files == AttachAll(old(files), target, selected[..i], unsaved)
        invariant Counted(Outcomes(old(files), target, selected[..i], unsaved), attached, skipped, |errors|)
      {
        assert selected[..i + 1][..i] == selected[..i];
        OneOutcomeMore(old(files), target, selected, unsaved, i, attached, skipped, |errors|);
        var outcome := AttachCandidate(selected[i], target, unsaved);
        match outcome
        case Attached => attached := attached + 1;
        case Skipped => skipped := skipped + 1;
        case Failed => errors := errors + [selected[i].source];
      }
      assert selected[..|selected|] == selected;
      CountsAddUp(old(files), target, selected, unsaved, attached, skipped, |errors|);
      if attached > 0 || skipped > 0 {
        status := "attached";
      } else if errors != [] {
        status := "error";
      }
    }
  }

  lemma {:induction false} FilesGrow(files: seq<File>, target: string, selected: seq<Candidate>,
                                     unsaved: set<Candidate>)
    ensures files <= AttachAll(files, target, selected, unsaved)
  {
    if selected != [] {
      FilesGrow(files, target, selected[..|selected| - 1], unsaved);
    }
  }

  lemma {:induction false} SelectedArePresent(files: seq<File>, target: string, selected: seq<Candidate>,
                                              unsaved: set<Candidate>)
    ensures forall c | c in selected && c !in unsaved :: Present(AttachAll(files, target, selected, unsaved), target, c)
  {
    if selected != [] {
      var before, last := selected[..|selected| - 1], selected[|selected| - 1];
      assert selected == before + [last];
      SelectedArePresent(files, target, before, unsaved);
      var mid, after := AttachAll(files, target, before, unsaved), AttachAll(files, target, selected, unsaved);
      assert forall f | f in mid :: f in after;
      if Judge(mid, target, last, unsaved) == Attached {
        assert AsFile(target, last) in after;
      }
    }
  }

  lemma {:induction false} PresentFilesAreSkipped(files: seq<File>, target: string, selected: seq<Candidate>,
                                                  unsaved: set<Candidate>)
    requires forall c | c in selected :: Present(files, target, c) || c in unsaved
    ensures AttachAll(files, target, selected, unsaved) == files
  {
    if selected != [] {
      assert selected == selected[..|selected| - 1] + [selected[|selected| - 1]];
      PresentFilesAreSkipped(files, target, selected[..|selected| - 1], unsaved);
    }
  }

  /** Attaching the same receipts again, all or some of them and in any order, adds no file. */
  lemma AttachingAgainAddsNothing(files: seq<File>, target: string, selected: seq<Candidate>, again: seq<Candidate>,
                                unsaved: set<Candidate>)
    requires forall c | c in again :: c in selected
    ensures var once := AttachAll(files, target, selected, unsaved);
            AttachAll(once, target, again, unsaved) == once
  {
    SelectedArePresent(files, target, selected, unsaved);
    PresentFilesAreSkipped(AttachAll(files, target, selected, unsaved), target, again, unsaved);
  }

  /** No target holds the same content twice, and no attachment id is on two files. */
  predicate NoTwins(files: seq<File>) {
    forall i, j | 0 <= i < j < |files| ::
      && !(files[i].target == files[j].target && files[i].hash == files[j].hash)
      && (files[i].attachment != "" ==> files[i].attachment != files[j].attachment)
  }

  lemma {:induction false} AttachingMakesNoTwins(files: seq<File>, target: string, selected: seq<Candidate>,
                                                 unsaved: set<Candidate>)
    requires NoTwins(files)
    ensures NoTwins(AttachAll(files, target, selected, unsaved))
  {
    if selected != [] {
      AttachingMakesNoTwins(files, target, selected[..|selected| - 1], unsaved);
    }
  }

  // ---------------------------------------------------------------- which contents arrive

  lemma {:induction false} GrowthIsFromSelected(files: seq<File>, target: string, selected: seq<Candidate>,
                                                unsaved: set<Candidate>)
    ensures forall f | f in AttachAll(files, target, selected, unsaved) ::
              f in files || exists c :: c in selected && f == AsFile(target, c)
  {
    if selected != [] {
      var before, last := selected[..|selected| - 1], selected[|selected| - 1];
      assert selected == before + [last];
      GrowthIsFromSelected(files, target, before, unsaved);
    }
  }

  /** At its turn the file can be stored, and no file has its attachment id. */
  predicate FreeAt(files: seq<File>, target: string, selected: seq<Candidate>, unsaved: set<Candidate>, k: nat)
    requires k < |selected|
  {
    selected[k] !in unsaved && !IdTaken(AttachAll(files, target, selected[..k], unsaved), selected[k])
  }

  /** Some selected file of this content is free at its turn. */
  ghost predicate SomeFree(files: seq<File>, target: string, selected: seq<Candidate>, unsaved: set<Candidate>,
                           hash: string) {
    exists k: nat :: k < |selected| && selected[k].hash == hash && FreeAt(files, target, selected, unsaved, k)
  }

  /**
   * A content is on the target afterwards if and only if it was before, or some selected file of it can
   * be stored and does not find its attachment id taken at its turn.
   */
  lemma {:induction false} ContentArrivesExactlyWhen(files: seq<File>, target: string, selected: seq<Candidate>,
                                                     unsaved: set<Candidate>, hash: string)
    ensures OnTarget(AttachAll(files, target, selected, unsaved), target, hash)
            <==> OnTarget(files, target, hash) || SomeFree(files, target, selected, unsaved, hash)
  {
    if selected != [] {
      var before, last := selected[..|selected| - 1], selected[|selected| - 1];
      ContentArrivesExactlyWhen(files, target, before, unsaved, hash);
      FreeOneMore(files, target, selected, unsaved, hash);
      AttachArrives(AttachAll(files, target, before, unsaved), target, last, unsaved, hash);
    }
  }

  lemma AttachArrives(files: seq<File>, target: string, c: Candidate, unsaved: set<Candidate>, hash: string)
    ensures OnTarget(Attach(files, target, c, unsaved), target, hash)
            <==> OnTarget(files, target, hash) || (c.hash == hash && c !in unsaved && !IdTaken(files, c))
  {
    var after := Attach(files, target, c, unsaved);
    if Judge(files, target, c, unsaved) == Attached {
      assert after[|files|] == AsFile(target, c) && AsFile(target, c) in after;
      assert forall f :: f in after <==> f in files || f == AsFile(target, c);
    }
  }

  lemma FreeOneMore(files: seq<File>, target: string, selected: seq<Candidate>, unsaved: set<Candidate>, hash: string)
    requires selected != []
    ensures var last := |selected| - 1;
            SomeFree(files, target, selected, unsaved, hash)
            <==> SomeFree(files, target, selected[..last], unsaved, hash)
                 || (selected[last].hash == hash && FreeAt(files, target, selected, unsaved, last))
  {
    var last := |selected| - 1;
    forall k: nat | k < last
      ensures FreeAt(files, target, selected, unsaved, k) == FreeAt(files, target, selected[..last], unsaved, k)
    {
      assert selected[..last][..k] == selected[..k];
    }
    if SomeFree(files, target, selected[..last], unsaved, hash) {
      var k: nat :| k < last && selected[..last][k].hash == hash && FreeAt(files, target, selected[..last], unsaved, k);
      assert FreeAt(files, target, selected, unsaved, k);
    }
    if SomeFree(files, target, selected, unsaved, hash) {
      var k: nat :| k < |selected| && selected[k].hash == hash && FreeAt(files, target, selected, unsaved, k);
      assert k < last ==> FreeAt(files, target, selected[..last], unsaved, k);
    }
  }

  /** Selected files that share an attachment id share their content. */
  ghost predicate IdsNameContents(selected: seq<Candidate>) {
    forall c, d | c in selected && d in selected && AttachmentId(c) == AttachmentId(d) != "" :: c.hash == d.hash
  }

  /** Every selected file that can be stored has its content on the target. */
  ghost predicate AllArrived(files: seq<File>, target: string, selected: seq<Candidate>, unsaved: set<Candidate>) {
    forall c | c in selected && c !in unsaved :: OnTarget(files, target, c.hash)
  }

  /**
   * The content is on the target, or some selected file of it can be stored under an attachment id
   * that is not taken.
   */
  ghost predicate CanArrive(files: seq<File>, target: string, selected: seq<Candidate>, unsaved: set<Candidate>,
                            hash: string) {
    || OnTarget(files, target, hash)
    || exists d :: d in selected && d.hash == hash && d !in unsaved && !IdTaken(files, d)
  }

  lemma FreeMeansCanArrive(files: seq<File>, target: string, selected: seq<Candidate>, unsaved: set<Candidate>,
                           hash: string)
    requires SomeFree(files, target, selected, unsaved, hash)
    ensures CanArrive(files, target, selected, unsaved, hash)
  {
    var k: nat :| k < |selected| && selected[k].hash == hash && FreeAt(files, target, selected, unsaved, k);
    FilesGrow(files, target, selected[..k], unsaved);
    assert forall f | f in files :: f in AttachAll(files, target, selected[..k], unsaved);
    assert selected[k] in selected && !IdTaken(files, selected[k]);
  }

  lemma CanArriveArrives(files: seq<File>, target: string, selected: seq<Candidate>, unsaved: set<Candidate>,
                         d: Candidate)
    requires IdsNameContents(selected) && d in selected && d !in unsaved && !IdTaken(files, d)
    ensures OnTarget(AttachAll(files, target, selected, unsaved), target, d.hash)
  {
    var k: nat :| k < |selected| && selected[k] == d;
    var before := AttachAll(files, target, selected[..k], unsaved);
    if IdTaken(before, d) {
      var f :| f in before && f.attachment == AttachmentId(d);
      GrowthIsFromSelected(files, target, selected[..k], unsaved);
      var c :| c in selected[..k] && f == AsFile(target, c);
      assert c in selected && OnTarget(before, target, d.hash);
      EarlierStays(files, target, selected, unsaved, k, d.hash);
    } else {
      assert FreeAt(files, target, selected, unsaved, k);
      ContentArrivesExactlyWhen(files, target, selected, unsaved, d.hash);
    }
  }

  lemma {:induction false} EarlierStays(files: seq<File>, target: string, selected: seq<Candidate>,
                                        unsaved: set<Candidate>, k: nat, hash: string)
    requires k <= |selected| && OnTarget(AttachAll(files, target, selected[..k], unsaved), target, hash)
    ensures OnTarget(AttachAll(files, target, selected, unsaved), target, hash)
    decreases |selected|
  {
    if k < |selected| {
      var before := selected[..|selected| - 1];
      assert before[..k] == selected[..k];
      EarlierStays(files, target, before, unsaved, k, hash);
      AttachArrives(AttachAll(files, target, before, unsaved), target, selected[|selected| - 1], unsaved, hash);
    } else {
      assert selected[..k] == selected;
    }
  }

  /**
   * Where attachment ids name contents, every storable selected file has its content on the target in the
   * end if and only if each content is there at the start, or comes in a storable file whose attachment
   * id no file has yet.
   */
  lemma AllArriveExactlyWhen(files: seq<File>, target: string, selected: seq<Candidate>, unsaved: set<Candidate>)
    requires IdsNameContents(selected)
    ensures AllArrived(AttachAll(files, target, selected, unsaved), target, selected, unsaved)
            <==> forall c | c in selected && c !in unsaved :: CanArrive(files, target, selected, unsaved, c.hash)
  {
    forall c | c in selected && c !in unsaved
      ensures OnTarget(AttachAll(files, target, selected, unsaved), target, c.hash)
              <==> CanArrive(files, target, selected, unsaved, c.hash)
    {
      ContentArrivesExactlyWhen(files, target, selected, unsaved, c.hash);
      if SomeFree(files, target, selected, unsaved, c.hash) {
        FreeMeansCanArrive(files, target, selected, unsaved, c.hash);
      }
      if !OnTarget(files, target, c.hash) && CanArrive(files, target, selected, unsaved, c.hash) {
        var d :| d in selected && d.hash == c.hash && d !in unsaved && !IdTaken(files, d);
        CanArriveArrives(files, target, selected, unsaved, d);
      }
    }
  }

  /** A file on another target has the attachment id: nothing is attached, and the content stays away. */
  lemma AnotherTargetKeepsTheId(c: Candidate, target: string, other: string)
    requires target != other && AttachmentId(c) != ""
    ensures var files := [AsFile(other, c)];
            && Judge(files, target, c, {}) == Skipped
            && AttachAll(files, target, [c], {}) == files && !OnTarget(files, target, c.hash)
  {
    var files := [AsFile(other, c)];
    assert AsFile(other, c) in files && [c][..0] == [];
    assert AttachAll(files, target, [], {}) == files;
  }

  // ---------------------------------------------------------------- the file and the outcome by their fields

  /** The attachment id, or for want of one the source, up to 140 characters of it. */
  lemma AttachmentIdMeans(c: Candidate)
    ensures var full := if c.attachment != "" then c.attachment else c.source;
            AttachmentId(c) <= full && |AttachmentId(c)| == if |full| <= 140 then |full| else 140
    ensures Cut(c.message) <= c.message && |Cut(c.message)| == if |c.message| <= 140 then |c.message| else 140
    ensures forall target :: AsFile(target, c) == File(target, c.hash, AttachmentId(c), Cut(c.message))
  {
  }

  /** A file is skipped for its id on any target or its content on this one; else it is stored if it can be. */
  lemma JudgeMeans(files: seq<File>, target: string, c: Candidate, unsaved: set<Candidate>)
    ensures var skipped := || (AttachmentId(c) != "" && exists f :: f in files && f.attachment == AttachmentId(c))
                           || (exists f :: f in files && f.hash == c.hash && f.target == target);
            Judge(files, target, c, unsaved) == if skipped then Skipped else if c in unsaved then Failed else Attached
  {
  }
}

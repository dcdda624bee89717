// Runs over the hotspot rows: reconciliations, evaluations and explanations of a
// row, and candidates that are cleared away (app/analysis/hotspot_lifecycle.py,
// app/pipeline/workers/analyze.py, app/analysis/editorial_reanalysis.py,
// app/analysis/clip_scorer.py, app/analysis/event_enricher.py, app/analysis/reanalysis.py).

module HotspotHistory {
  import opened Wrappers
  import opened HotspotForest
  import opened HotspotLifecycle
  import RecordingCoverage

  // The inputs of one reconciliation.
  datatype Round = Round(payloads: seq<Payload>, expected: nat, sessionExists: bool, related: nat -> (nat, nat) -> bool,
                         segments: seq<RecordingCoverage.Segment>, observed: Option<real>, force: bool, cfg: Config)

  // An evaluation stores the explanation that came with it, if any. The first one
  // of a row expects no candidate, a repeated one the candidate it has.
  datatype Step =
    | Reconciliation(round: Round)
    | Evaluation(id: nat, expected: Option<nat>, score: real, explained: Option<real>, candidate: Option<nat>)
    | Explanation(id: nat, semantic: real)
    | Detachment(cleared: nat)
  {
    predicate Accepted() {
      match this
      case Reconciliation(_) => true
      case Evaluation(_, _, score, explained, _) => Score(score) && (explained.Some? ==> Score(explained.value))
      case Explanation(_, semantic) => Score(semantic)
      case Detachment(_) => true
    }
  }

  // ----- Steps and runs

  function PayloadsOf(step: Step): seq<Payload> {
    if step.Reconciliation? then step.round.payloads else []
  }

  ghost predicate ExplainedBy(rows: Rows, rows': Rows, id: nat, semantic: real) {
    if id in rows then exists root: nat :: ResolvesTo(rows, id, root) && Explained(rows, rows', root, semantic)
    else rows' == rows
  }

  // What each step does to the table.
  ghost predicate IsStep(step: Step, rows: Rows, rows': Rows) {
    && Inv(rows) && Inv(rows')
    && match step
       case Reconciliation(round) => Evolves(rows, rows') && Stems(rows, rows', round.payloads)
       case Evaluation(id, expected, score, explained, candidate) =>
         step.Accepted() && rows' == EvaluatedRows(rows, id, expected, score, explained, candidate)
       case Explanation(id, semantic) => ExplainedBy(rows, rows', id, semantic)
       case Detachment(cleared) => IsDetached(rows, rows', cleared)
  }

  ghost predicate StepAt(tables: seq<Rows>, steps: seq<Step>, i: nat) {
    i < |steps| && i + 1 < |tables| && IsStep(steps[i], tables[i], tables[i + 1])
  }

  // The tables that a run passes through.
  ghost predicate History(tables: seq<Rows>, steps: seq<Step>) {
    |tables| == |steps| + 1 && forall i: nat | i < |steps| :: StepAt(tables, steps, i)
  }

  method RunStep(t: HotspotTable, step: Step)
    requires t.Valid() && step.Accepted()
    modifies t
    ensures t.Valid() && IsStep(step, old(t.rows), t.rows)
  {
    match step
    case Reconciliation(r) =>
      var _ := t.Reconcile(r.payloads, r.expected, r.sessionExists, r.related, r.segments, r.observed, r.force, r.cfg);
    case Evaluation(id, expected, score, explained, candidate) =>
      t.Evaluate(id, expected, score, explained, candidate);
    case Explanation(id, semantic) =>
      ghost var root := t.Explain(id, semantic);
    case Detachment(cleared) =>
      t.Detach(cleared);
  }

  // Any sequence of steps, accepted or rejected.
  method RunSteps(t: HotspotTable, steps: seq<Step>) returns (ghost tables: seq<Rows>)
    requires t.Valid() && forall i | 0 <= i < |steps| :: steps[i].Accepted()
    modifies t
    ensures t.Valid() && History(tables, steps) && tables[0] == old(t.rows) && tables[|steps|] == t.rows
  {
    tables := [t.rows];
    for k := 0 to |steps|
      invariant t.Valid() && |tables| == k + 1 && tables[0] == old(t.rows) && tables[k] == t.rows
      invariant forall i: nat | i < k :: StepAt(tables, steps, i)
    {
      RunStep(t, steps[k]);
      ghost var longer := tables + [t.rows];
      forall i: nat | i < k + 1 ensures StepAt(longer, steps, i) {
        if i < k {
          assert StepAt(tables, steps, i);
        }
      }
      tables := longer;
    }
  }

  // ----- No row is lost and every root spans what was merged into it

  lemma StepOutgrows(step: Step, rows: Rows, rows': Rows)
    requires IsStep(step, rows, rows')
    ensures Outgrows(rows, rows')
  {
    match step
    case Reconciliation(_) => EvolvesOutgrows(rows, rows');
    case Evaluation(id, expected, score, explained, candidate) =>
      EvaluatedKeeps(rows, id, expected, score, explained, candidate);
    case Explanation(id, semantic) =>
      if id in rows {
        var root: nat :| ResolvesTo(rows, id, root) && Explained(rows, rows', root, semantic);
        ExplainedGrows(rows, rows', root, semantic);
      } else {
        EvolvesReflexive(rows);
        EvolvesOutgrows(rows, rows);
      }
    case Detachment(cleared) => DetachedKeeps(rows, rows', cleared);
  }

  lemma {:induction false} HistoryOutgrows(tables: seq<Rows>, steps: seq<Step>, i: nat, j: nat)
    requires History(tables, steps) && i <= j <= |steps| && Inv(tables[i])
    ensures Inv(tables[j]) && Outgrows(tables[i], tables[j])
    decreases j
  {
    if i == j {
      EvolvesReflexive(tables[i]);
      EvolvesOutgrows(tables[i], tables[i]);
    } else {
      HistoryOutgrows(tables, steps, i, j - 1);
      assert StepAt(tables, steps, j - 1);
      StepOutgrows(steps[j - 1], tables[j - 1], tables[j]);
      OutgrowsTransitive(tables[i], tables[j - 1], tables[j]);
    }
  }

  // A row that leads to a root leads, at any later point, to a well-formed root
  // that spans both; merged rows stay merged and no row is lost.
  lemma RunKeepsRow(tables: seq<Rows>, steps: seq<Step>, i: nat, j: nat, x: nat, r: nat) returns (root: nat)
    requires History(tables, steps) && i <= j <= |steps| && Inv(tables[i]) && ResolvesTo(tables[i], x, r)
    ensures x in tables[i] && r in tables[i] && x in tables[j] && root in tables[j]
    ensures ResolvesTo(tables[j], x, root) && ResolvesTo(tables[j], r, root)
    ensures WellFormed(tables[j][root]) && !tables[j][root].status.Merged?
    ensures Within(tables[i][x], tables[j][root]) && Within(tables[i][r], tables[j][root])
    ensures tables[i][x].status.Merged? ==> tables[j][x].status.Merged?
  {
    var (before, after) := (tables[i], tables[j]);
    HistoryOutgrows(tables, steps, i, j);
    RootEnd(before, x, r);
    assert !before[r].status.Merged?;
    root := RootToday(before, after, r);
    FollowsRoot(before, after, x, r, root);
    RootEnd(after, x, root);
    assert Grown(before[x], after[x]) && Grown(before[r], after[r]);
  }

  // ----- When semantic confidence falls

  // The step stores an explanation for x that is less confident than before.
  ghost predicate Lowers(step: Step, rows: Rows, x: nat)
    requires x in rows
  {
    match step
    case Evaluation(id, expected, _, explained, _) =>
      && id == x && rows[x].status.Confirmed? && rows[x].candidate == expected
      && explained.Some? && explained.value < rows[x].semantic
    case Explanation(id, semantic) =>
      id in rows && ResolvesTo(rows, id, x) && !rows[x].status.Dismissed? && semantic < rows[x].semantic
    case _ => false
  }

  // A row loses semantic confidence at a step if and only if the step stores a
  // less confident explanation for it.
  lemma SemanticFallsExactlyWhen(tables: seq<Rows>, steps: seq<Step>, k: nat, x: nat)
    requires History(tables, steps) && k < |steps| && x in tables[k]
    ensures x in tables[k + 1] && (tables[k + 1][x].semantic < tables[k][x].semantic <==> Lowers(steps[k], tables[k], x))
  {
    assert StepAt(tables, steps, k);
    StepLowers(steps[k], tables[k], tables[k + 1], x);
  }

  lemma StepLowers(step: Step, rows: Rows, rows': Rows, x: nat)
    requires IsStep(step, rows, rows') && x in rows
    ensures x in rows' && (rows'[x].semantic < rows[x].semantic <==> Lowers(step, rows, x))
  {
    StepOutgrows(step, rows, rows');
    match step
    case Reconciliation(_) => assert Later(rows[x], rows'[x]);
    case Evaluation(_, _, _, _, _) =>
    case Explanation(id, semantic) =>
      if id in rows {
        var root: nat :| ResolvesTo(rows, id, root) && Explained(rows, rows', root, semantic);
        if ResolvesTo(rows, id, x) {
          RootUnique(rows, id, root, x);
        }
      }
    case Detachment(cleared) => assert rows'[x] == Detached(rows[x], cleared);
  }

  // So along a stretch of a run without such a step it never falls.
  lemma {:induction false} SemanticFallNeedsExplanation(tables: seq<Rows>, steps: seq<Step>, i: nat, j: nat, x: nat)
    requires History(tables, steps) && i <= j <= |steps| && x in tables[i]
    requires forall k | i <= k < j :: x in tables[k] ==> !Lowers(steps[k], tables[k], x)
    ensures x in tables[j] && tables[i][x].semantic <= tables[j][x].semantic
    decreases j
  {
    if i < j {
      SemanticFallNeedsExplanation(tables, steps, i, j - 1, x);
      SemanticFallsExactlyWhen(tables, steps, j - 1, x);
      assert !Lowers(steps[j - 1], tables[j - 1], x);
    }
  }

  // A confirmed root of 0.9 with an alias merged into it.
  function MergedPair(): Rows {
    var root := Event("a", 1, 0.0, 1.0, 2.0, Confirmed, 0.5, 0.5, 0.9, 0.5, NoMeta, None, None);
    map[1 := root, 2 := root.(key := "b", status := Merged, mergedInto := Some(1))]
  }

  // An evaluation whose explanation fell back to no confidence leaves the root
  // below the row that was merged into it.
  lemma FallbackLowersSemantic()
    ensures var (rows, rows') := (MergedPair(), EvaluatedRows(MergedPair(), 1, None, 0.4, Some(0.0), None));
            && ResolvesTo(rows, 2, 1) && ResolvesTo(rows', 2, 1)
            && rows'[1].semantic < rows[1].semantic && rows'[1].semantic < rows'[2].semantic
  {
    var (rows, rows') := (MergedPair(), EvaluatedRows(MergedPair(), 1, None, 0.4, Some(0.0), None));
    assert Chain(rows, 1, 1, 0) && Chain(rows, 2, 1, 1);
    assert Chain(rows', 1, 1, 0) && Chain(rows', 2, 1, 1);
  }

  // ----- Frozen rows

  // Clearing a candidate away releases the rows linked to it, and no others.
  predicate Releases(step: Step, e: Event) {
    step.Detachment? && e.candidate == Some(step.cleared)
  }

  // The step rates or explains x.
  ghost predicate Rates(step: Step, rows: Rows, x: nat)
    requires x in rows
  {
    match step
    case Evaluation(id, expected, _, _, _) => id == x && rows[x].status.Confirmed? && rows[x].candidate == expected
    case Explanation(id, _) => id in rows && ResolvesTo(rows, id, x) && !rows[x].status.Dismissed?
    case _ => false
  }

  // Bounds, peak, detector scores, status and candidate are the same.
  ghost predicate Held(e: Event, e': Event) {
    && e' == e.(clip := e'.clip, meta := e'.meta, semantic := e'.semantic, mergedInto := e'.mergedInto)
    && DetectorClip(e') == DetectorClip(e)
  }

  // A frozen row is released, rated, or the same, and rating it changes nothing
  // but its event-level score and its semantic confidence.
  lemma StepHolds(step: Step, rows: Rows, rows': Rows, x: nat)
    requires IsStep(step, rows, rows') && x in rows && Frozen(rows[x])
    ensures x in rows'
    ensures Releases(step, rows[x]) ==> rows'[x] == rows[x].(candidate := None)
    ensures !Releases(step, rows[x]) ==> Held(rows[x], rows'[x])
    ensures !Releases(step, rows[x]) && !Rates(step, rows, x) ==> SameRow(rows[x], rows'[x])
  {
    StepOutgrows(step, rows, rows');
    match step
    case Reconciliation(_) => assert Later(rows[x], rows'[x]);
    case Evaluation(id, expected, score, explained, candidate) =>
      EvaluatedKeeps(rows, id, expected, score, explained, candidate);
      assert Assessed(rows[x], rows'[x]);
    case Explanation(id, semantic) =>
      if id in rows {
        var root: nat :| ResolvesTo(rows, id, root) && Explained(rows, rows', root, semantic);
      }
    case Detachment(cleared) => assert rows'[x] == Detached(rows[x], cleared);
  }

  // From the moment a row is dismissed or linked to a candidate no reconciliation
  // changes it, until that candidate is cleared away: only a rating or an
  // explanation of the row itself changes its event-level score and confidence.
  lemma {:induction false} RunKeepsFrozen(tables: seq<Rows>, steps: seq<Step>, i: nat, j: nat, x: nat)
    requires History(tables, steps) && i <= j <= |steps| && x in tables[i] && Frozen(tables[i][x])
    requires forall k | i <= k < j :: !Releases(steps[k], tables[i][x])
    ensures x in tables[j] && Held(tables[i][x], tables[j][x])
    ensures (forall k | i <= k < j :: x in tables[k] && !Rates(steps[k], tables[k], x)) ==>
              SameRow(tables[i][x], tables[j][x])
    decreases j
  {
    if i < j {
      RunKeepsFrozen(tables, steps, i, j - 1, x);
      assert StepAt(tables, steps, j - 1);
      assert !Releases(steps[j - 1], tables[i][x]);
      StepHolds(steps[j - 1], tables[j - 1], tables[j], x);
    }
  }

  // An evaluation that links a row freezes it until the candidate is cleared away.
  lemma LinkFreezesUntilRelease(tables: seq<Rows>, steps: seq<Step>, i: nat, j: nat)
    requires History(tables, steps) && i < j <= |steps| && steps[i].Evaluation? && steps[i].candidate.Some?
    requires steps[i].expected.None? && steps[i].id in tables[i]
    requires tables[i][steps[i].id].status.Confirmed? && tables[i][steps[i].id].candidate.None?
    requires forall k | i < k < j :: steps[k] != Detachment(steps[i].candidate.value)
    ensures var x := steps[i].id;
            && x in tables[j] && tables[j][x].candidate == steps[i].candidate && tables[j][x].status.Confirmed?
            && tables[j][x].start == tables[i][x].start && tables[j][x].end == tables[i][x].end
            && tables[j][x].peak == tables[i][x].peak && Strength(tables[j][x]) == Strength(tables[i][x])
  {
    assert StepAt(tables, steps, i);
    var (x, e) := (steps[i].id, tables[i][steps[i].id]);
    assert WellFormed(e);
    assert tables[i + 1][x] == Evaluated(e, steps[i].score, steps[i].explained, steps[i].candidate);
    RunKeepsFrozen(tables, steps, i + 1, j, x);
  }

  // ----- What a run keeps of an accepted payload

  // The payload's row and the id share a root, which spans the payload or is frozen.
  ghost predicate SpannedAt(rows: Rows, p: Payload, id: nat, root: nat) {
    && root in rows && ResolvesTo(rows, id, root) && Leads(rows, p, root)
    && (Frozen(rows[root]) || CoversPayload(rows[root], p))
  }

  ghost predicate Spanned(rows: Rows, p: Payload, id: nat) {
    exists root :: SpannedAt(rows, p, id, root)
  }

  lemma ReachedIsSpanned(rows: Rows, p: Payload, id: nat)
    requires Reached(rows, p, id)
    ensures Spanned(rows, p, id)
  {
    var root: nat :| root in rows && ResolvesTo(rows, id, root) && Settled(rows, p, root);
    assert SpannedAt(rows, p, id, root);
  }

  // The step releases the root that the id has, and only its link kept the payload.
  ghost predicate Forgets(step: Step, rows: Rows, p: Payload, root: nat)
    requires root in rows
  {
    Releases(step, rows[root]) && !rows[root].status.Dismissed? && !CoversPayload(rows[root], p)
  }

  lemma KeptUnlessForgotten(step: Step, rows: Rows, rows': Rows, p: Payload, id: nat, root: nat)
    requires IsStep(step, rows, rows') && SpannedAt(rows, p, id, root) && !Forgets(step, rows, p, root)
    ensures Spanned(rows', p, id)
  {
    StepOutgrows(step, rows, rows');
    RootEnd(rows, id, root);
    var r := RootToday(rows, rows', root);
    FollowsRoot(rows, rows', id, root, r);
    LeadsFollows(rows, rows', p, root, r);
    if CoversPayload(rows[root], p) {
      CoverFollows(rows, rows', p, root, r);
    } else {
      StepHolds(step, rows, rows', root);
      assert r == root && Frozen(rows'[r]);
    }
    assert SpannedAt(rows', p, id, r);
  }

  lemma ForgottenIsLost(step: Step, rows: Rows, rows': Rows, p: Payload, id: nat, root: nat)
    requires IsStep(step, rows, rows') && SpannedAt(rows, p, id, root) && Forgets(step, rows, p, root)
    ensures !Spanned(rows', p, id)
  {
    StepHolds(step, rows, rows', root);
    StepOutgrows(step, rows, rows');
    RootEnd(rows, id, root);
    var today := RootToday(rows, rows', root);
    FollowsRoot(rows, rows', id, root, today);
    forall r ensures !SpannedAt(rows', p, id, r) {
      if SpannedAt(rows', p, id, r) {
        RootUnique(rows', id, r, today);
      }
    }
  }

  // At the step after i the id's root of today forgets the payload.
  ghost predicate ForgetsAt(tables: seq<Rows>, steps: seq<Step>, p: Payload, id: nat, k: nat)
    requires k < |steps| && k < |tables|
  {
    exists root: nat :: SpannedAt(tables[k], p, id, root) && Forgets(steps[k], tables[k], p, root)
  }

  lemma StepForgetsExactlyWhen(tables: seq<Rows>, steps: seq<Step>, k: nat, p: Payload, id: nat)
    requires History(tables, steps) && k < |steps| && Spanned(tables[k], p, id)
    ensures !Spanned(tables[k + 1], p, id) <==> ForgetsAt(tables, steps, p, id, k)
  {
    assert StepAt(tables, steps, k);
    var root :| SpannedAt(tables[k], p, id, root);
    if Forgets(steps[k], tables[k], p, root) {
      ForgottenIsLost(steps[k], tables[k], tables[k + 1], p, id, root);
    } else {
      KeptUnlessForgotten(steps[k], tables[k], tables[k + 1], p, id, root);
      forall r: nat ensures !(SpannedAt(tables[k], p, id, r) && Forgets(steps[k], tables[k], p, r)) {
        if SpannedAt(tables[k], p, id, r) {
          RootUnique(tables[k], id, root, r);
        }
      }
    }
  }

  // A returned id goes on leading to a root that spans the payload or is frozen if
  // and only if no step clears away the candidate of a root that does not span it.
  lemma RunForgetsExactlyWhen(tables: seq<Rows>, steps: seq<Step>, i: nat, p: Payload, id: nat)
    requires History(tables, steps) && i <= |steps| && Spanned(tables[i], p, id)
    ensures (forall k | i <= k <= |steps| :: Spanned(tables[k], p, id))
       <==> (forall k | i <= k < |steps| :: !ForgetsAt(tables, steps, p, id, k))
  {
    if forall k | i <= k <= |steps| :: Spanned(tables[k], p, id) {
      forall k | i <= k < |steps| ensures !ForgetsAt(tables, steps, p, id, k) {
        assert Spanned(tables[k], p, id) && Spanned(tables[k + 1], p, id);
        StepForgetsExactlyWhen(tables, steps, k, p, id);
      }
    }
    if forall k | i <= k < |steps| :: !ForgetsAt(tables, steps, p, id, k) {
      forall j | i <= j <= |steps| ensures Spanned(tables[j], p, id) {
        RememberedSoFar(tables, steps, i, j, p, id);
      }
    }
  }

  lemma {:induction false} RememberedSoFar(tables: seq<Rows>, steps: seq<Step>, i: nat, j: nat, p: Payload, id: nat)
    requires History(tables, steps) && i <= j <= |steps| && Spanned(tables[i], p, id)
    requires forall k | i <= k < |steps| :: !ForgetsAt(tables, steps, p, id, k)
    ensures Spanned(tables[j], p, id)
    decreases j
  {
    if i < j {
      RememberedSoFar(tables, steps, i, j - 1, p, id);
      assert !ForgetsAt(tables, steps, p, id, j - 1);
      StepForgetsExactlyWhen(tables, steps, j - 1, p, id);
    }
  }

  // A linked row [0, 2], and an observation of the same key that lasts until 9.
  const LINKED := Event("a", 1, 0.0, 1.0, 2.0, Confirmed, 0.5, 0.5, 0.5, 0.5, NoMeta, Some(5), None)

  const LONGER := Payload("a", 1, 0.0, 1.0, 9.0, 0.5, 0.5, 0.5, 0.5, NoMeta)

  // Clearing its candidate away leaves a live row that does not span the observation.
  lemma DetachmentForgets()
    ensures var rows := map[1 := LINKED];
            && Reached(rows, LONGER, 1) && IsDetached(rows, map[1 := Detached(LINKED, 5)], 5)
            && !Spanned(map[1 := Detached(LINKED, 5)], LONGER, 1)
  {
    var (rows, rows') := (map[1 := LINKED], map[1 := Detached(LINKED, 5)]);
    assert Chain(rows, 1, 1, 0) && Chain(rows', 1, 1, 0);
    assert ResolvesTo(rows, 1, 1) && ResolvesTo(rows', 1, 1);
    assert Leads(rows, LONGER, 1);
    assert Settled(rows, LONGER, 1);
    forall r ensures !SpannedAt(rows', LONGER, 1, r) {
      if SpannedAt(rows', LONGER, 1, r) {
        RootUnique(rows', 1, r, 1);
      }
    }
  }

  // ----- Where the peak of a root comes from

  // The payloads of the first k steps.
  function SeenBy(steps: seq<Step>, k: nat): seq<Payload>
    requires k <= |steps|
  {
    if k == 0 then [] else SeenBy(steps, k - 1) + PayloadsOf(steps[k - 1])
  }

  lemma StepStems(step: Step, rows: Rows, rows': Rows)
    requires IsStep(step, rows, rows')
    ensures Stems(rows, rows', PayloadsOf(step))
  {
    if !step.Reconciliation? {
      StepOutgrows(step, rows, rows');
      forall x <- rows ensures SightOf(rows'[x]) == SightOf(rows[x]) {
        StepKeepsSight(step, rows, rows', x);
      }
      SameSightStems(rows, rows', []);
    }
  }

  lemma StepKeepsSight(step: Step, rows: Rows, rows': Rows, x: nat)
    requires IsStep(step, rows, rows') && !step.Reconciliation? && x in rows && x in rows'
    ensures SightOf(rows'[x]) == SightOf(rows[x])
  {
    match step
    case Reconciliation(_) =>
    case Evaluation(id, expected, score, explained, candidate) =>
      EvaluatedKeeps(rows, id, expected, score, explained, candidate);
      assert Assessed(rows[x], rows'[x]);
    case Explanation(id, semantic) =>
      if id in rows {
        var root: nat :| ResolvesTo(rows, id, root) && Explained(rows, rows', root, semantic);
      }
    case Detachment(cleared) => assert rows'[x] == Detached(rows[x], cleared);
  }

  // Along any run from an empty table every peak is that of an observation whose
  // row shares the root, with the strength that the row then has.
  lemma {:induction false} RunStems(tables: seq<Rows>, steps: seq<Step>, j: nat)
    requires History(tables, steps) && tables[0] == map[] && j <= |steps|
    ensures Stems(map[], tables[j], SeenBy(steps, j))
    decreases j
  {
    if j > 0 {
      RunStems(tables, steps, j - 1);
      assert StepAt(tables, steps, j - 1);
      StepOutgrows(steps[j - 1], tables[j - 1], tables[j]);
      StepStems(steps[j - 1], tables[j - 1], tables[j]);
      StemsTransitive(map[], tables[j - 1], tables[j], SeenBy(steps, j - 1), PayloadsOf(steps[j - 1]));
    }
  }

  // So the root that a payload has reached takes its peak from an observation whose
  // row leads to this root, and which is at least as strong as the payload unless
  // the root is frozen.
  lemma RootPeakIsStrongest(tables: seq<Rows>, steps: seq<Step>, j: nat, p: Payload, id: nat)
    returns (root: nat, from: Payload)
    requires History(tables, steps) && tables[0] == map[] && j <= |steps| && Spanned(tables[j], p, id)
    ensures root in tables[j] && ResolvesTo(tables[j], id, root)
    ensures from in SeenBy(steps, j) && SightOf(tables[j][root]) in PayloadSights(from) && Leads(tables[j], from, root)
    ensures Frozen(tables[j][root]) || Strength(tables[j][root]) >= Force(p)
  {
    var rows := tables[j];
    RunStems(tables, steps, j);
    root :| SpannedAt(rows, p, id, root);
    assert HasStem(map[], rows, SeenBy(steps, j), root);
    from :| from in SeenBy(steps, j) && FromPayload(rows, root, from);
    var z :| SharesWith(rows, root, z, from);
    var r: nat :| ResolvesTo(rows, root, r) && ResolvesTo(rows, z, r);
    RootEnd(rows, id, root);
    RootUnique(rows, root, root, r);
  }
}

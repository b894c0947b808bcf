/**
 What holds of every stored evidence pack after any sequence of calls, and what later calls
 can no longer change.
 */
module EvidenceInvariants {
  import opened Prelude
  import opened EvidenceManifest
  import opened EvidenceCompleteness
  import opened EvidenceStore

  // ----- pack identifiers are fresh -----

  function DigitValue(c: char): nat {
    if '0' <= c <= '9' then (c - '0') as nat else 0
  }

  function Parse(s: string): nat {
    if s == "" then 0 else 10 * Parse(s[..|s| - 1]) + DigitValue(s[|s| - 1])
  }

  predicate AllDigits(s: string) {
    forall i :: 0 <= i < |s| ==> '0' <= s[i] <= '9'
  }

  lemma ParseAppend(s: string, c: char)
    ensures Parse(s + [c]) == 10 * Parse(s) + DigitValue(c)
  {
    assert (s + [c])[..|s|] == s;
  }

  lemma {:induction false} ParseDecimal(n: nat)
    ensures Parse(Decimal(n)) == n && AllDigits(Decimal(n))
  {
    if n < 10 {
      ParseAppend("", Digit(n));
      assert "" + [Digit(n)] == Decimal(n);
    } else {
      ParseDecimal(n / 10);
      ParseAppend(Decimal(n / 10), Digit(n % 10));
    }
  }

  lemma {:induction false} ParseLeadingZero(s: string)
    requires AllDigits(s)
    ensures Parse("0" + s) == Parse(s) && AllDigits("0" + s)
  {
    if s == "" {
      assert ("0" + s)[..0] == "";
    } else {
      var rest := s[..|s| - 1];
      ParseLeadingZero(rest);
      assert ("0" + s)[..|s|] == "0" + rest;
    }
  }

  lemma ParsePadded(n: nat)
    ensures Parse(Padded(n)) == n && AllDigits(Padded(n))
  {
    var d := Decimal(n);
    ParseDecimal(n);
    ParseLeadingZero(d);
    ParseTwoZeros(d);
    if n < 10 {
      ParseLeadingZero("00" + d);
      assert "000" + d == "0" + ("00" + d);
    }
  }

  lemma ParseTwoZeros(s: string)
    requires AllDigits(s)
    ensures Parse("00" + s) == Parse(s) && AllDigits("00" + s)
  {
    ParseLeadingZero(s);
    ParseLeadingZero("0" + s);
    assert "00" + s == "0" + ("0" + s);
  }

  /** Text before and after the last dash is determined by the joined text. */
  lemma LastDash(a: string, d: string, b: string, e: string)
    requires AllDigits(d) && AllDigits(e)
    requires a + "-" + d == b + "-" + e
    ensures d == e
  {
    var s, t := a + "-" + d, b + "-" + e;
    forall i | |a| < i < |s| ensures s[i] != '-' {
      assert s[i] == d[i - |a| - 1];
    }
    forall i | |b| < i < |t| ensures t[i] != '-' {
      assert t[i] == e[i - |b| - 1];
    }
    assert s[|a|] == '-' && t[|b|] == '-';
    assert |a| == |b|;
    assert d == s[|a| + 1..] && e == t[|b| + 1..];
  }

  /** Pack identifiers made with different sequence numbers differ, whatever the run identifiers are. */
  lemma PackIdInjective(r: string, m: nat, s: string, n: nat)
    requires PackId(r, m) == PackId(s, n)
    ensures m == n
  {
    ParsePadded(m);
    ParsePadded(n);
    LastDash("epk-" + r, Padded(m), "epk-" + s, Padded(n));
  }

  // ----- the invariant -----

  /** A stored pack is well formed and its derived fields are up to date. */
  ghost predicate Coherent(env: Screens, m: Manifest) {
    && ValidManifest(env, m)
    && m == Derive(m, m.classification.Blocked?)
    && (m.classification.Blocked? && m.wave.W02? ==> BlockedArtifactsOk(m.artifacts))
  }

  ghost predicate NumberedUpTo(packId: string, runId: string, seqNo: nat) {
    exists n: nat :: n <= seqNo && packId == PackId(runId, n)
  }

  ghost predicate GoodEntry(env: Screens, st: StoreState, id: string) {
    id in st.packs ==>
      && Coherent(env, st.packs[id])
      && st.packs[id].packId == id
      && NumberedUpTo(id, st.packs[id].runId, st.seqNo)
  }

  ghost predicate StoreInv(env: Screens, st: StoreState) {
    forall id :: GoodEntry(env, st, id)
  }

  lemma CheckedIsCoherent(env: Screens, m: Manifest, blocked: bool)
    requires Checked(env, Derive(m, blocked), blocked).Ok?
    ensures Coherent(env, Checked(env, Derive(m, blocked), blocked).value)
  {
  }

  lemma NextIdIsFresh(env: Screens, st: StoreState, runId: string)
    requires StoreInv(env, st)
    ensures PackId(runId, st.seqNo + 1) !in st.packs
  {
    var id := PackId(runId, st.seqNo + 1);
    if id in st.packs {
      assert GoodEntry(env, st, id);
      var n: nat :| n <= st.seqNo && id == PackId(st.packs[id].runId, n);
      PackIdInjective(st.packs[id].runId, n, runId, st.seqNo + 1);
    }
  }

  /** Replacing one entry by a coherent pack of the same identifier keeps the invariant. */
  lemma PutKeepsInv(env: Screens, st: StoreState, id: string, m: Manifest, seqNo: nat)
    requires StoreInv(env, st) && seqNo >= st.seqNo
    requires Coherent(env, m) && m.packId == id && NumberedUpTo(id, m.runId, seqNo)
    ensures StoreInv(env, StoreState(st.packs[id := m], seqNo))
  {
    var after := StoreState(st.packs[id := m], seqNo);
    forall other ensures GoodEntry(env, after, other) {
      CountUp(env, st, other, seqNo);
    }
  }

  lemma CountUp(env: Screens, st: StoreState, id: string, seqNo: nat)
    requires StoreInv(env, st) && seqNo >= st.seqNo
    ensures GoodEntry(env, StoreState(st.packs, seqNo), id)
  {
    assert GoodEntry(env, st, id);
    if id in st.packs {
      var n: nat :| n <= st.seqNo && id == PackId(st.packs[id].runId, n);
      assert n <= seqNo && id == PackId(st.packs[id].runId, n);
    }
  }

  lemma CreateKeepsInv(env: Screens, st: StoreState, input: CreateInput, now: int)
    requires StoreInv(env, st)
    ensures StoreInv(env, CreateStep(env, st, input, now).0)
  {
    var wave := WaveOf(input.wave);
    if input.runId != "" && wave.Some? {
      var n := st.seqNo + 1;
      var m := NewManifest(input, wave.value, PackId(input.runId, n), now);
      var r := Checked(env, Derive(m, input.blocked), input.blocked);
      if r.Ok? {
        CheckedIsCoherent(env, m, input.blocked);
        assert NumberedUpTo(m.packId, m.runId, n);
        PutKeepsInv(env, st, m.packId, r.value, n);
      } else {
        forall id ensures GoodEntry(env, st.(seqNo := n), id) {
          CountUp(env, st, id, n);
        }
      }
    }
  }

  lemma UpdateKeepsInv(env: Screens, st: StoreState, packId: string, patch: PatchInput)
    requires StoreInv(env, st)
    ensures StoreInv(env, UpdateStep(env, st, packId, patch).0)
  {
    if packId in st.packs {
      var m := Patched(st.packs[packId], patch);
      var blocked := BlockedAfter(st.packs[packId], patch);
      var r := Checked(env, Derive(m, blocked), blocked);
      if r.Ok? {
        CheckedIsCoherent(env, m, blocked);
        assert GoodEntry(env, st, packId);
        PutKeepsInv(env, st, packId, r.value, st.seqNo);
      }
    }
  }

  lemma ExportKeepsInv(env: Screens, st: StoreState, packId: string, record: ExportRecord)
    requires StoreInv(env, st)
    ensures StoreInv(env, ExportStep(st, packId, record).0)
  {
    if packId in st.packs {
      assert GoodEntry(env, st, packId);
      PutKeepsInv(env, st, packId, ExportStep(st, packId, record).1.value, st.seqNo);
    }
  }

  lemma StepKeepsInv(env: Screens, st: StoreState, op: Op)
    requires StoreInv(env, st)
    ensures StoreInv(env, Step(env, st, op).0)
  {
    match op
    case Create(input, now) => CreateKeepsInv(env, st, input, now);
    case Update(packId, patch) => UpdateKeepsInv(env, st, packId, patch);
    case RecordExport(packId, record) => ExportKeepsInv(env, st, packId, record);
  }

  lemma {:induction false} RunKeepsInv(env: Screens, st: StoreState, ops: seq<Op>)
    requires StoreInv(env, st)
    ensures StoreInv(env, Run(env, st, ops))
    decreases |ops|
  {
    if ops != [] {
      StepKeepsInv(env, st, ops[0]);
      RunKeepsInv(env, Step(env, st, ops[0]).0, ops[1..]);
    }
  }

  ghost predicate Reachable(env: Screens, st: StoreState) {
    exists ops :: Run(env, EmptyStore(), ops) == st
  }

  lemma ReachableInv(env: Screens, st: StoreState)
    requires Reachable(env, st)
    ensures StoreInv(env, st)
  {
    var ops :| Run(env, EmptyStore(), ops) == st;
    RunKeepsInv(env, EmptyStore(), ops);
  }

  // ----- coherence of every stored pack -----

  lemma {:induction false} UnrelaxedEmpty(missing: seq<Gap>, gateFired: bool)
    ensures Unrelaxed(missing, gateFired) == [] <==> forall g :: g in missing ==> Relaxed(g, gateFired)
  {
    if missing != [] {
      var rest := missing[..|missing| - 1];
      UnrelaxedEmpty(rest, gateFired);
      assert missing == rest + [missing[|missing| - 1]];
    }
  }

  /** Validation, status, completeness and classification of a stored pack always agree. */
  lemma StatusFieldsAgree(env: Screens, st: StoreState, id: string)
    requires Reachable(env, st) && id in st.packs
    ensures var m := st.packs[id];
            && (m.validation.ok <==> m.validation.missing == [])
            && (m.status.Complete? <==> m.validation.ok)
            && (m.classification.Success? <==> m.completeness.CompleteEvidence?)
            && (m.classification.Success? <==> m.validation.ok && !m.classification.Blocked?)
            && (m.classification.Blocked? <==> m.completeness.BlockedRun?)
            && m.validation.completeness == m.completeness
            && !m.classification.Failed? && !m.status.Invalid?
  {
    ReachableInv(env, st);
    assert GoodEntry(env, st, id);
  }

  /** A blocked W0.2 pack carries no generated Java, no final artifact and no selected candidate. */
  lemma BlockedPacksSelectNothing(env: Screens, st: StoreState, id: string)
    requires Reachable(env, st) && id in st.packs
    requires st.packs[id].wave.W02? && st.packs[id].classification.Blocked?
    ensures var a := st.packs[id].artifacts;
            && !Present(a.generatedJava) && !HasFinal(a)
            && forall i :: 0 <= i < |a.generatedJavaArtifacts| ==> !a.generatedJavaArtifacts[i].selected
  {
    ReachableInv(env, st);
    assert GoodEntry(env, st, id);
  }

  /** The manual-edit flag, the drift count and the overlay of a stored pack always agree. */
  lemma ManualEditsAgree(env: Screens, st: StoreState, id: string)
    requires Reachable(env, st) && id in st.packs
    ensures var m := st.packs[id];
            && (m.carriedOver <==> m.driftRegionCount > 0)
            && (m.carriedOver <==> m.artifacts.manualEditOverlay.Some?)
            && (m.carriedOver ==> m.artifacts.manualEditOverlay.value.regionCount == m.driftRegionCount)
  {
    ReachableInv(env, st);
    assert GoodEntry(env, st, id);
    ManualEditSignalsAgree(env, st.packs[id]);
  }

  lemma OverlayNeverMissing(env: Screens, m: Manifest)
    requires ValidManifest(env, m)
    ensures ManifestValidation(m.artifacts, m.wave, m.carriedOver).missing == WaveGaps(m.artifacts, m.wave)
    ensures ManifestValidation(m.artifacts, m.wave, m.carriedOver).ok <==> WaveGaps(m.artifacts, m.wave) == []
  {
  }

  /** A W0.2 pack is a success exactly when the run is not blocked and the pack is audit checked;
      it is then audit complete exactly when the lengths of the identifiers tell its repair
      invocations apart, which NUL-free identifiers always do. */
  lemma SuccessIsAuditComplete(env: Screens, st: StoreState, id: string)
    requires Reachable(env, st) && id in st.packs && st.packs[id].wave.W02?
    ensures var m := st.packs[id];
            && (m.classification.Success? <==> !m.classification.Blocked? && AuditChecked(m.artifacts))
            && (m.classification.Success? && LengthsTellInvocations(m.artifacts) <==>
                !m.classification.Blocked? && AuditComplete(m.artifacts))
            && (m.classification.Success? && NulFreeInvocations(m.artifacts) ==> AuditComplete(m.artifacts))
  {
    ReachableInv(env, st);
    assert GoodEntry(env, st, id);
    OverlayNeverMissing(env, st.packs[id]);
    NoGapsMeansAuditChecked(env, st.packs[id].artifacts);
    NoGapsMeansAuditComplete(env, st.packs[id].artifacts);
  }

  /** Everything but the identity of repair invocations needs no assumption on identifiers. */
  lemma SuccessIsComplete(env: Screens, st: StoreState, id: string)
    requires Reachable(env, st) && id in st.packs && st.packs[id].wave.W02? && st.packs[id].classification.Success?
    ensures var a := st.packs[id].artifacts;
            && AllPresent2(a) && RolesBackedUp(a) && BudgetsGrew(a)
            && ValidSnapshot(a.assistDecision.value.assistSnapshot)
            && ValidSnapshot(a.assistDecision.value.repairSnapshot)
            && ValidSnapshot(a.assistDecision.value.modelInvocationSnapshot)
            && OneSelectedFinal(a.generatedJavaArtifacts, a.finalJavaArtifact.value)
            && a.generatedJava.value.uri == a.finalJavaArtifact.value.uri
            && a.generatedJava.value.sha256 == a.finalJavaArtifact.value.sha256
    ensures var a := st.packs[id].artifacts;
            forall i :: 0 <= i < |a.repairAttempts| ==>
              var r := a.repairAttempts[i];
              && BuildResolves(a, r) && CandidateResolves(a, r)
              && r.modelInvocationRef.Some? && r.modelInvocationRef.value.agentRole == ROLE_REPAIR
              && ModelInvocationKey(r.modelInvocationRef.value) in InvocationKeys(a.modelInvocations)
  {
    SuccessIsAuditComplete(env, st, id);
    ReachableInv(env, st);
    assert GoodEntry(env, st, id);
    AuditCheckedMeans(env, st.packs[id].artifacts);
  }

  /** The audit conditions with their nested parts written out. */
  lemma {:induction false} AuditCheckedMeans(env: Screens, a: Artifacts)
    requires AuditChecked(a) && ValidShape(env, a)
    ensures && ValidSnapshot(a.assistDecision.value.assistSnapshot)
            && ValidSnapshot(a.assistDecision.value.repairSnapshot)
            && ValidSnapshot(a.assistDecision.value.modelInvocationSnapshot)
    ensures forall i :: 0 <= i < |a.repairAttempts| ==>
              var r := a.repairAttempts[i];
              && BuildResolves(a, r) && CandidateResolves(a, r)
              && r.modelInvocationRef.Some? && r.modelInvocationRef.value.agentRole == ROLE_REPAIR
              && ModelInvocationKey(r.modelInvocationRef.value) in InvocationKeys(a.modelInvocations)
  {
    assert forall i :: 0 <= i < |a.repairAttempts| ==> AttemptChecked(a, a.repairAttempts[i]);
  }

  lemma InConcat(s: seq<Gap>, t: seq<Gap>, g: Gap)
    ensures g in s + t <==> g in s || g in t
  {
  }

  lemma LineageGapsAreListed(a: Artifacts)
    ensures !HasBudget(a) ==> Gap(BudgetSummaryName) in WaveGaps(a, W02)
    ensures !HasDecision(a) ==> Gap(AssistDecisionName) in WaveGaps(a, W02)
  {
    var last := When(!HasBudget(a), BudgetSummaryName);
    var before := When(!HasDecision(a), AssistDecisionName);
    var presence := PresenceGaps2(a);
    var n := |presence| - |last| - |before|;
    assert presence[n..] == before + last;
    assert forall g :: g in presence[n..] ==> g in presence;
    assert !HasBudget(a) ==> last[0] in last;
    InConcat(before, last, Gap(BudgetSummaryName));
    InConcat(before, last, Gap(AssistDecisionName));
  }

  lemma RelaxationKeepsLineage(gaps: seq<Gap>, gateFired: bool)
    requires Unrelaxed(gaps, gateFired) == []
    ensures Gap(BudgetSummaryName) !in gaps
    ensures gateFired ==> Gap(AssistDecisionName) !in gaps
  {
    UnrelaxedEmpty(gaps, gateFired);
  }

  /** A blocked W0.2 pack counts as complete only with its budget summary, and with its assist
      decision once the gate was reached. */
  lemma BlockedCompleteKeepsLineage(env: Screens, st: StoreState, id: string)
    requires Reachable(env, st) && id in st.packs
    requires st.packs[id].wave.W02? && st.packs[id].classification.Blocked? && st.packs[id].status.Complete?
    ensures var a := st.packs[id].artifacts; HasBudget(a) && (ReachedGate(a) ==> HasDecision(a))
  {
    ReachableInv(env, st);
    assert GoodEntry(env, st, id);
    var m := st.packs[id];
    OverlayNeverMissing(env, m);
    RelaxationKeepsLineage(WaveGaps(m.artifacts, W02), ReachedGate(m.artifacts));
    LineageGapsAreListed(m.artifacts);
  }
}

/** What a candidate becomes, and its duplicates. */
module ContextDrafts {
  import opened Results
  import opened Ordering
  import opened KeyedSorting
  import opened ContextModel
  import opened ContextPlanner
  import opened ContextPlans
  import opened ContextRender
  import opened ContextCompiler
  import opened ContextGuarantees
  import opened ContextOutcomes

  // ---- Drafts ----

  /** A candidate keeps its identity; a role or the upstream selection makes it mandatory; its cost is that of its line. */
  lemma DraftMeans(s: set<Evidence>, request: Request, e: Evidence) returns (d: Draft)
    requires e in s
    ensures d in DraftsOf(s, request) && d.id == e.id && d.status == e.status && d.text == e.text && d.role == RoleFor(e)
    ensures d.mandatory <==>
              || d.role in request.mandatoryRoles
              || (request.selection.Some? && e.id in request.selection.value.mandatory)
    ensures d.role in request.mandatoryRoles ==> d.tier == 0
    ensures d.role !in request.mandatoryRoles ==> 1 <= d.tier <= 4
    ensures d.rendered == "- [" + RoleLabel(d.role) + "; " + StatusLabel(e.status) + "; " + e.id + "] " + request.escape(e.text)
    ensures d.cost == Estimate((Bytes(d.rendered) + 2) / 3 + 1, Bytes(d.rendered))
  {
    d := DraftOf(e, s, request);
    assert d.rendered[0] == '-';
  }

  /** The tiers of the roles that are not mandatory, tier by tier; all others are of tier 3. */
  lemma TiersMean(role: Role, status: ResolutionStatus, profile: Profile, mandatoryRoles: set<Role>)
    requires role !in mandatoryRoles
    ensures !TierFor(role, status, profile, mandatoryRoles).1 && 1 <= TierFor(role, status, profile, mandatoryRoles).0 <= 4
    ensures TierFor(role, status, profile, mandatoryRoles).0 == 1 <==>
              role == CURRENT_STATE || (role == DECISION && profile !in {DEBUGGING, RESEARCH, GENERAL})
    ensures TierFor(role, status, profile, mandatoryRoles).0 == 2 <==>
              || (role == DECISION && profile in {DEBUGGING, RESEARCH, GENERAL})
              || (role in {IMPLEMENTATION_FACT, LESSON} && profile in {IMPLEMENTATION, DEBUGGING, REVIEW})
    ensures TierFor(role, status, profile, mandatoryRoles).0 == 4 <==>
              || role == HISTORICAL_CONTEXT
              || (role == OPEN_LOOP && profile !in {CONTINUATION, DEBUGGING})
              || (status == HISTORICAL && role !in {CURRENT_STATE, DECISION, IMPLEMENTATION_FACT, LESSON, PREFERENCE, OPEN_LOOP})
  {
  }

  /** The record of a candidate alone decides its role: no special status, no project state. */
  predicate RecordDecides(e: Evidence) {
    e.status !in {STATUS_GAP, CONTESTED, UNRESOLVED, HISTORICAL} && e.stateKind.None?
  }

  /** Which records get the roles of memories. */
  lemma MemoryRolesMean(e: Evidence)
    ensures RoleFor(e) == DECISION <==> RecordDecides(e) && e.recordKind == "decision"
    ensures RoleFor(e) == PREFERENCE <==> RecordDecides(e) && e.recordKind == "preference"
    ensures RoleFor(e) == LESSON <==> RecordDecides(e) && e.recordKind == "lesson"
    ensures RoleFor(e) == OPEN_LOOP <==> RecordDecides(e) && e.recordKind == "open_loop"
    ensures RoleFor(e) == IMPLEMENTATION_FACT <==> RecordDecides(e) && e.recordKind == "fact"
    ensures RecordDecides(e) && e.recordKind == "requirement" ==> RoleFor(e) == REQUIREMENT
    ensures RecordDecides(e) && e.recordKind == "constraint" ==> RoleFor(e) == CONSTRAINT
  {
  }

  /** Which roles are shown under which heading. */
  lemma HeadingsMean(role: Role)
    ensures SectionName(SectionFor(role)) == "CRITICAL CONTEXT" <==> role == IMPLEMENTATION_FACT
    ensures SectionName(SectionFor(role)) == "CURRENT STATE" <==> role == CURRENT_STATE
    ensures SectionName(SectionFor(role)) == "DECISIONS" <==> role == DECISION
    ensures SectionName(SectionFor(role)) == "REQUIREMENTS & CONSTRAINTS" <==> role in {REQUIREMENT, CONSTRAINT}
    ensures SectionName(SectionFor(role)) == "KNOWN GAPS / CONFLICTS" <==> role in {IMPLEMENTATION_GAP, CONFLICT}
    ensures SectionName(SectionFor(role)) == "RELEVANT LESSONS" <==> role in {LESSON, PREFERENCE, OPEN_LOOP}
    ensures SectionName(SectionFor(role)) == "OPTIONAL SUPPORT" <==> role in {HISTORICAL_CONTEXT, SUPPORTING_EVIDENCE}
  {
  }

  /** Which candidates get a role that reports a problem, history or the state of the project. */
  lemma RolesMean(e: Evidence)
    ensures RoleFor(e) == CONFLICT <==> e.status in {CONTESTED, UNRESOLVED}
    ensures RoleFor(e) == HISTORICAL_CONTEXT <==> e.status == HISTORICAL
    ensures RoleFor(e) == IMPLEMENTATION_GAP <==>
              || e.status == STATUS_GAP
              || (e.status !in {CONTESTED, UNRESOLVED, HISTORICAL} && e.stateKind == Some("blocker"))
    ensures RoleFor(e) == CURRENT_STATE <==>
              && e.status !in {STATUS_GAP, CONTESTED, UNRESOLVED, HISTORICAL} && e.stateKind.Some?
              && e.stateKind.value !in {"requirement", "constraint", "risk", "blocker"}
  {
  }

  // ---- Duplicates ----

  /** Another candidate of the same project makes the same claim. */
  ghost predicate Repeated(e: Evidence, s: set<Evidence>) {
    exists f :: f in s && f != e && f.projectId == e.projectId && f.fingerprint == e.fingerprint
  }

  lemma GroupedExactly(e: Evidence, s: set<Evidence>)
    ensures GroupOf(e, s).Some? <==> e.fingerprint != "" && Repeated(e, s)
  {
    if Repeated(e, s) {
      var f :| f in s && f != e && f.projectId == e.projectId && f.fingerprint == e.fingerprint;
      assert SameClaim(e, f);
    }
    if GroupOf(e, s).Some? {
      var f :| f in s && f != e && SameClaim(e, f);
    }
  }

  lemma PrefixedAlike(prefix: string, a: string, b: string)
    requires prefix + a == prefix + b
    ensures a == b
  {
    assert a == (prefix + a)[|prefix|..];
    assert b == (prefix + b)[|prefix|..];
  }

  /** Two candidates share a group exactly if they share a fingerprint and each is repeated in its own project. */
  lemma GroupsMean(s: set<Evidence>, request: Request, e: Evidence, f: Evidence)
    ensures (DraftOf(e, s, request).group.Some? && DraftOf(e, s, request).group == DraftOf(f, s, request).group) <==>
              e.fingerprint == f.fingerprint && e.fingerprint != "" && Repeated(e, s) && Repeated(f, s)
  {
    GroupedExactly(e, s);
    GroupedExactly(f, s);
    if GroupOf(e, s).Some? && GroupOf(e, s) == GroupOf(f, s) {
      PrefixedAlike("dup_", e.fingerprint, f.fingerprint);
    }
  }

  /** A context never shows two candidates of one group, whatever their projects. */
  lemma OneOfAGroup(s: set<Evidence>, request: Request, r: Compilation, e: Evidence, f: Evidence)
    requires UniqueEvidence(s) && CompilesTo(s, request, r) && r.Compiled?
    requires e in Chosen(s, request) && f in Chosen(s, request) && e != f
    requires e.fingerprint == f.fingerprint && e.fingerprint != ""
    requires Repeated(e, Chosen(s, request)) && Repeated(f, Chosen(s, request))
    ensures !(exists a, b :: a in r.selected && b in r.selected && a.id == e.id && b.id == f.id)
  {
    if exists a, b :: a in r.selected && b in r.selected && a.id == e.id && b.id == f.id {
      var a, b :| a in r.selected && b in r.selected && a.id == e.id && b.id == f.id;
      var c := Chosen(s, request);
      var x, y := DraftOf(e, c, request), DraftOf(f, c, request);
      CompiledIsSound(s, request, r);
      ChosenAreUnique(s, request);
      GroupsMean(c, request, e, f);
      assert a in Elements(r.selected) && b in Elements(r.selected);
      assert a in DraftsOf(c, request) && b in DraftsOf(c, request);
      assert a == x && b == y;
      assert EvidenceKey(e) != EvidenceKey(f);
      NotBothKept(DraftsOf(c, request), RulesFor(request), a, b);
    }
  }

  lemma NotBothKept(s: set<Draft>, rules: Rules, a: Draft, b: Draft)
    requires UniqueIdsIn(s) && a.group.Some? && a.group == b.group && a != b
    ensures !(a in Kept(s, rules) && b in Kept(s, rules))
  {
    KeptMeans(s, rules, a);
    KeptMeans(s, rules, b);
    if a in Kept(s, rules) && b in Kept(s, rules) {
      DuplicateOrder(a, b);
      DuplicateOrder(b, a);
      KeyLessAsymmetric(DuplicateKey(a), DuplicateKey(b));
    }
  }

  /** A candidate gives way to a better one of its group, which may belong to another project. */
  lemma GivesWay(s: set<Evidence>, request: Request, e: Evidence, f: Evidence)
    requires UniqueEvidence(s) && e in s && f in s
    requires e.fingerprint == f.fingerprint && e.fingerprint != "" && Repeated(e, s) && Repeated(f, s)
    requires MayBeShown(DraftOf(e, s, request), RulesFor(request))
    requires Wins(DraftOf(e, s, request), DraftOf(f, s, request))
    ensures UniqueIdsIn(DraftsOf(s, request)) && DraftOf(f, s, request) !in Kept(DraftsOf(s, request), RulesFor(request))
  {
    var w, d := DraftOf(e, s, request), DraftOf(f, s, request);
    DraftIds(s, request);
    GroupsMean(s, request, e, f);
    assert w in DraftsOf(s, request) && d in DraftsOf(s, request);
    WinnersOnly(DraftsOf(s, request), RulesFor(request), w, d);
  }

  lemma WinnersOnly(s: set<Draft>, rules: Rules, w: Draft, d: Draft)
    requires UniqueIdsIn(s) && w in s && d in s && w.group.Some? && w.group == d.group
    requires MayBeShown(w, rules) && Wins(w, d)
    ensures d !in Kept(s, rules)
  {
    KeptMeans(s, rules, d);
    UsableMeans(w, rules);
    if d in Kept(s, rules) {
      UsableMeans(d, rules);
      StringLessIrreflexive(d.id);
      DuplicateOrder(w, d);
      DuplicateOrder(d, w);
      KeyLessAsymmetric(DuplicateKey(w), DuplicateKey(d));
    }
  }

  function SharedClaim(id: string, project: string): Evidence {
    Evidence(id, AUTHORITATIVE, None, "fact", "text", Some(project), "claim")
  }

  /** One fingerprint, twice in each of two projects. */
  ghost function TwoProjects(): set<Evidence> {
    {SharedClaim("a1", "p"), SharedClaim("a2", "p"), SharedClaim("b1", "q"), SharedClaim("b2", "q")}
  }

  lemma TwoProjectsRepeat()
    ensures UniqueEvidence(TwoProjects())
    ensures Repeated(SharedClaim("a1", "p"), TwoProjects())
    ensures Repeated(SharedClaim("b1", "q"), TwoProjects()) && Repeated(SharedClaim("b2", "q"), TwoProjects())
  {
    var s := TwoProjects();
    assert SharedClaim("a2", "p") in s && SharedClaim("b1", "q") in s && SharedClaim("b2", "q") in s;
    assert SharedClaim("a1", "p").id != SharedClaim("a2", "p").id && SharedClaim("b1", "q").id != SharedClaim("b2", "q").id;
  }

  /** Fingerprints are compared across projects: what project q repeats can give way to project p altogether. */
  lemma ProjectsMerge(request: Request, id: string)
    requires !request.secret("text") && id in {"b1", "b2"}
    ensures UniqueIdsIn(DraftsOf(TwoProjects(), request))
    ensures DraftOf(SharedClaim(id, "q"), TwoProjects(), request) !in Kept(DraftsOf(TwoProjects(), request), RulesFor(request))
  {
    var s := TwoProjects();
    TwoProjectsRepeat();
    assert StringLess("a1", id);
    GivesWay(s, request, SharedClaim("a1", "p"), SharedClaim(id, "q"));
  }
}

/** The listing store as a cache of stage results: it always agrees with its inputs. */
module EnrichmentCache {
  import opened Types
  import opened Enrichment

  /** Results computed on this listing, or on one with the same fingerprint. */
  ghost predicate LlmBacked(s: State, document: EnrichedListing) {
    exists listing :: (listing, document.options) in s.llmResults
      && listing.externalId == document.raw.externalId && SameInputs(document, listing)
  }

  ghost predicate CvBacked(s: State, document: EnrichedListing) {
    exists listing :: (listing, document.defects) in s.cvResults
      && listing.externalId == document.raw.externalId && SameInputs(document, listing)
  }

  /** What a finished flag claims is true. */
  ghost predicate Agrees(s: State, document: EnrichedListing) {
    (document.llmDone ==> LlmBacked(s, document)) && (document.cvDone ==> CvBacked(s, document))
  }

  /** Written by an attempt on `listing`, or good enough to be published for it. */
  predicate Matches(document: EnrichedListing, listing: RawListing) {
    document.raw.externalId == listing.externalId && SameInputs(document, listing)
  }

  ghost predicate AttemptOk(s: State, x: Attempt) {
    match x.pc
    case Prepare(existing) => existing.Some? ==>
      Agrees(s, existing.value) && existing.value.raw.externalId == x.listing.externalId
    case Stages(state, llm, cv) =>
      && Agrees(s, state) && Matches(state, x.listing)
      && (llm.Returned? ==> (x.listing, llm.result) in s.llmResults)
      && (cv.Returned? ==> (x.listing, cv.result) in s.cvResults)
    case Finalize(state) => Agrees(s, state) && Matches(state, x.listing)
    case Publish(document) => Agrees(s, document) && Matches(document, x.listing) && document.IsFullyEnriched()
    case Published(document) => document.IsFullyEnriched()
      && Publication(x.eventId, x.listing, document) in s.publications
    case _ => true
  }

  ghost predicate Inv(s: State) {
    && (forall id :: id in s.docs ==> s.docs[id].raw.externalId == id && Agrees(s, s.docs[id]))
    && (forall t :: t in s.attempts ==> AttemptOk(s, s.attempts[t]))
    && (forall p :: p in s.publications ==> PublicationOk(s, p))
  }

  ghost predicate PublicationOk(s: State, p: Publication) {
    Agrees(s, p.document) && Matches(p.document, p.trigger) && p.document.IsFullyEnriched()
  }

  ghost predicate Init(s: State) {
    s.attempts == map[] && s.publications == {} &&
    forall id :: id in s.docs ==> s.docs[id].raw.externalId == id && Agrees(s, s.docs[id])
  }

  predicate MoreResults(s: State, t: State) {
    s.llmResults <= t.llmResults && s.cvResults <= t.cvResults
  }

  lemma AgreementLasts(s: State, t: State, document: EnrichedListing)
    requires Agrees(s, document) && MoreResults(s, t)
    ensures Agrees(t, document)
  {
    if document.llmDone {
      var listing :| (listing, document.options) in s.llmResults
        && listing.externalId == document.raw.externalId && SameInputs(document, listing);
      assert (listing, document.options) in t.llmResults;
    }
    if document.cvDone {
      var listing :| (listing, document.defects) in s.cvResults
        && listing.externalId == document.raw.externalId && SameInputs(document, listing);
      assert (listing, document.defects) in t.cvResults;
    }
  }

  lemma AttemptLasts(s: State, t: State, x: Attempt)
    requires AttemptOk(s, x) && MoreResults(s, t) && s.publications <= t.publications
    ensures AttemptOk(t, x)
  {
    match x.pc
    case Prepare(existing) => if existing.Some? { AgreementLasts(s, t, existing.value); }
    case Stages(state, _, _) => AgreementLasts(s, t, state);
    case Finalize(state) => AgreementLasts(s, t, state);
    case Publish(document) => AgreementLasts(s, t, document);
    case _ =>
  }

  /** Resuming keeps the agreement: progress is copied only when the inputs are the same. */
  lemma PreparedAgrees(s: State, x: Attempt)
    requires x.pc.Prepare? && AttemptOk(s, x)
    ensures var state := Prepared(x.listing, x.pc.existing);
      Agrees(s, state) && Matches(state, x.listing)
  {
    var state, existing := Prepared(x.listing, x.pc.existing), x.pc.existing;
    if existing.Some? && SameInputs(existing.value, x.listing) {
      if state.llmDone {
        var listing :| (listing, existing.value.options) in s.llmResults
          && listing.externalId == existing.value.raw.externalId && SameInputs(existing.value, listing);
        assert (listing, state.options) in s.llmResults && SameInputs(state, listing);
      }
      if state.cvDone {
        var listing :| (listing, existing.value.defects) in s.cvResults
          && listing.externalId == existing.value.raw.externalId && SameInputs(existing.value, listing);
        assert (listing, state.defects) in s.cvResults && SameInputs(state, listing);
      }
    }
  }

  /** Storing the one stage's result keeps what is known about the other. */
  lemma StoredAgrees(s: State, x: Attempt)
    requires x.pc.Stages? && AttemptOk(s, x)
    ensures x.pc.llm.Returned? ==> Agrees(s, x.pc.state.(options := x.pc.llm.result, llmDone := true))
    ensures x.pc.cv.Returned? ==> Agrees(s, x.pc.state.(defects := x.pc.cv.result, cvDone := true))
  {
    var state := x.pc.state;
    if x.pc.llm.Returned? {
      var next := state.(options := x.pc.llm.result, llmDone := true);
      assert (x.listing, next.options) in s.llmResults && SameInputs(next, x.listing);
      if next.cvDone {
        var listing :| (listing, state.defects) in s.cvResults
          && listing.externalId == state.raw.externalId && SameInputs(state, listing);
        assert (listing, next.defects) in s.cvResults && SameInputs(next, listing);
      }
    }
    if x.pc.cv.Returned? {
      var next := state.(defects := x.pc.cv.result, cvDone := true);
      assert (x.listing, next.defects) in s.cvResults && SameInputs(next, x.listing);
      if next.llmDone {
        var listing :| (listing, state.options) in s.llmResults
          && listing.externalId == state.raw.externalId && SameInputs(state, listing);
        assert (listing, next.options) in s.llmResults && SameInputs(next, listing);
      }
    }
  }

  lemma StampedAgrees(s: State, state: EnrichedListing, at: Time)
    requires Agrees(s, state)
    ensures Agrees(s, state.(enrichedAt := Some(at)))
  {
    var final := state.(enrichedAt := Some(at));
    if final.llmDone {
      var listing :| (listing, state.options) in s.llmResults
        && listing.externalId == state.raw.externalId && SameInputs(state, listing);
      assert (listing, final.options) in s.llmResults && SameInputs(final, listing);
    }
    if final.cvDone {
      var listing :| (listing, state.defects) in s.cvResults
        && listing.externalId == state.raw.externalId && SameInputs(state, listing);
      assert (listing, final.defects) in s.cvResults && SameInputs(final, listing);
    }
  }

  /** The facts about the acting attempt that its step relies on. */
  lemma ActorFacts(s: State, a: Action, t: nat)
    requires Inv(s) && Enabled(s, a) && Actor(a) == Some(t) && t in s.attempts
    ensures var x := s.attempts[t];
      && AttemptOk(s, x)
      && (x.pc.Prepare? ==>
           var state := Prepared(x.listing, x.pc.existing); Agrees(s, state) && Matches(state, x.listing))
      && (x.pc.Stages? && x.pc.llm.Returned? ==> Agrees(s, x.pc.state.(options := x.pc.llm.result, llmDone := true)))
      && (x.pc.Stages? && x.pc.cv.Returned? ==> Agrees(s, x.pc.state.(defects := x.pc.cv.result, cvDone := true)))
      && (x.pc.Finalize? ==> Agrees(s, x.pc.state.(enrichedAt := Some(s.clock))))
  {
    var x := s.attempts[t];
    assert AttemptOk(s, x);
    match x.pc
    case Prepare(_) => PreparedAgrees(s, x);
    case Stages(_, _, _) => StoredAgrees(s, x);
    case Finalize(state) => StampedAgrees(s, state, s.clock);
    case _ =>
  }

  /** Results and publications are only added to. */
  lemma LogsGrow(s: State, a: Action)
    requires Enabled(s, a)
    ensures MoreResults(s, Apply(s, a)) && s.publications <= Apply(s, a).publications
  {
  }

  /** The document at `id` is one this step writes. */
  ghost predicate Writes(s: State, a: Action, id: ListingId) {
    && Inv(s) && Enabled(s, a) && id in Apply(s, a).docs
    && (id in s.docs ==> s.docs[id] != Apply(s, a).docs[id])
  }

  lemma StageWriteAgrees(s: State, a: Action, id: ListingId)
    requires Writes(s, a, id) && (a.LlmStore? || a.LlmStoreRaise? || a.CvStore? || a.CvStoreRaise?)
    ensures var document := Apply(s, a).docs[id]; document.raw.externalId == id && Agrees(s, document)
  {
    ActorFacts(s, a, a.t);
  }

  lemma EdgeWriteAgrees(s: State, a: Action, id: ListingId)
    requires Writes(s, a, id) && (a.WritePrepared? || a.WriteFinal? || a.Raise?)
    ensures var document := Apply(s, a).docs[id]; document.raw.externalId == id && Agrees(s, document)
  {
    ActorFacts(s, a, a.t);
  }

  /** A document that a step writes is a fresh one, or one the acting attempt has in hand. */
  lemma WrittenAgrees(s: State, a: Action, id: ListingId)
    requires Writes(s, a, id)
    ensures var document := Apply(s, a).docs[id]; document.raw.externalId == id && Agrees(s, document)
  {
    if a.LlmStore? || a.LlmStoreRaise? || a.CvStore? || a.CvStoreRaise? {
      StageWriteAgrees(s, a, id);
    } else if a.WritePrepared? || a.WriteFinal? || a.Raise? {
      EdgeWriteAgrees(s, a, id);
    }
  }

  lemma DocsStep(s: State, a: Action, id: ListingId)
    requires Inv(s) && Enabled(s, a) && id in Apply(s, a).docs
    ensures var u := Apply(s, a); u.docs[id].raw.externalId == id && Agrees(u, u.docs[id])
  {
    var u := Apply(s, a);
    LogsGrow(s, a);
    if id !in s.docs || s.docs[id] != u.docs[id] {
      WrittenAgrees(s, a, id);
    }
    AgreementLasts(s, u, u.docs[id]);
  }

  /** A stage call returns: the log of results grows. */
  lemma ReturnStep(s: State, a: Action, t: nat)
    requires Enabled(s, a) && Actor(a) == Some(t) && t in s.attempts && AttemptOk(s, s.attempts[t])
    requires a.LlmReturn? || a.CvReturn?
    ensures AttemptOk(Apply(s, a), Apply(s, a).attempts[t])
  {
    AgreementLasts(s, Apply(s, a), s.attempts[t].pc.state);
  }

  /** Any other step: the result logs stay, and what the step works on is known to be good. */
  lemma OwnStep(s: State, a: Action, t: nat)
    requires Inv(s) && Enabled(s, a) && Actor(a) == Some(t) && t in s.attempts && !a.Drop?
    requires !a.LlmReturn? && !a.CvReturn?
    ensures AttemptOk(s.(publications := Apply(s, a).publications), Apply(s, a).attempts[t])
  {
    ActorFacts(s, a, t);
    AttemptLasts(s, s.(publications := Apply(s, a).publications), s.attempts[t]);
    assert a.Read? && s.attempts[t].listing.externalId in s.docs ==>
      Agrees(s, s.docs[s.attempts[t].listing.externalId]);
  }

  lemma AttemptStep(s: State, a: Action, t: nat)
    requires Inv(s) && Enabled(s, a) && t in Apply(s, a).attempts
    ensures AttemptOk(Apply(s, a), Apply(s, a).attempts[t])
  {
    var u := Apply(s, a);
    LogsGrow(s, a);
    if t !in s.attempts {
    } else if Actor(a) != Some(t) {
      Untouched(s, a, t);
      AttemptLasts(s, u, s.attempts[t]);
    } else if a.LlmReturn? || a.CvReturn? {
      ReturnStep(s, a, t);
    } else {
      OwnStep(s, a, t);
      AttemptLasts(s.(publications := u.publications), u, u.attempts[t]);
    }
  }

  lemma NewPublicationOk(s: State, a: Action, p: Publication)
    requires Inv(s) && Enabled(s, a) && p in NewlyPublished(s, a)
    ensures PublicationOk(s, p)
  {
    ActorFacts(s, a, a.t);
  }

  lemma PublicationStep(s: State, a: Action, p: Publication)
    requires Inv(s) && Enabled(s, a) && p in Apply(s, a).publications
    ensures PublicationOk(Apply(s, a), p)
  {
    var u := Apply(s, a);
    LogsGrow(s, a);
    PublicationsGrow(s, a);
    if p !in s.publications {
      NewPublicationOk(s, a, p);
    }
    assert PublicationOk(s, p);
    AgreementLasts(s, u, p.document);
  }

  lemma InvStep(s: State, a: Action)
    requires Inv(s) && Enabled(s, a)
    ensures Inv(Apply(s, a))
  {
    var u := Apply(s, a);
    forall id | id in u.docs ensures u.docs[id].raw.externalId == id && Agrees(u, u.docs[id]) {
      DocsStep(s, a, id);
    }
    forall t | t in u.attempts ensures AttemptOk(u, u.attempts[t]) {
      AttemptStep(s, a, t);
    }
    forall p | p in u.publications ensures PublicationOk(u, p) {
      PublicationStep(s, a, p);
    }
  }

  /** Under any interleaving of ingests and attempts, with failures and crashes at any await: a
      stored document whose flag is set holds a result some stage call computed on a listing
      with the same fingerprint. */
  lemma {:induction false} StoredResultsAgree(s: State, acts: seq<Action>)
    requires (Init(s) || Inv(s)) && Valid(s, acts)
    ensures var u := Exec(s, acts); Inv(u) && forall id :: id in u.docs ==> Agrees(u, u.docs[id])
    decreases |acts|
  {
    if acts != [] {
      InvStep(s, acts[0]);
      StoredResultsAgree(Apply(s, acts[0]), acts[1..]);
    }
  }

  /** Every published document is complete, agrees with its inputs, and has the fingerprint of
      the raw listing that triggered it, on the fast path too. */
  lemma PublishedMatchesTrigger(s: State, acts: seq<Action>, p: Publication)
    requires Init(s) && Valid(s, acts) && p in Exec(s, acts).publications
    ensures p.document.llmDone && p.document.cvDone && Agrees(Exec(s, acts), p.document)
    ensures EnrichmentFingerprint(p.document.raw) == EnrichmentFingerprint(p.trigger)
    ensures var raw, trigger := p.document.raw, p.trigger;
      && raw.title == trigger.title && raw.description == trigger.description && raw.make == trigger.make
      && raw.model == trigger.model && raw.year == trigger.year && raw.askingPrice == trigger.askingPrice
      && raw.imageUrls == trigger.imageUrls
    ensures p.document.raw.externalId == p.trigger.externalId
  {
    StoredResultsAgree(s, acts);
    assert PublicationOk(Exec(s, acts), p);
    SameFingerprintIff(p.document.raw, p.trigger);
  }
}

/** Resuming: over a sequence of attempts at one listing, one after the other, finished work is
    never repeated and never lost. */
module EnrichmentResume {
  import opened Types
  import opened Enrichment

  predicate On(x: Attempt, id: ListingId) { x.listing.externalId == id }

  /** What is asked of a run: no ingest of this listing in between, and a new attempt at it only
      on the same inputs and only once no other attempt at it is running. Other listings are
      free. */
  ghost predicate Sequential(s: State, a: Action, id: ListingId, inputs: Fingerprint)
    requires Enabled(s, a)
  {
    match a
    case EnqueueRaw(listing) => listing.externalId != id
    case Begin(t, listing, _) => listing.externalId == id ==>
      EnrichmentFingerprint(listing) == inputs && Idle(s, id)
    case _ => true
  }

  ghost predicate Idle(s: State, id: ListingId) {
    forall t :: t in s.attempts && On(s.attempts[t], id) ==> !s.attempts[t].Running()
  }

  ghost predicate AllSequential(s: State, acts: seq<Action>, id: ListingId, inputs: Fingerprint)
    requires Valid(s, acts)
    decreases |acts|
  {
    acts != [] ==> Sequential(s, acts[0], id, inputs) && AllSequential(Apply(s, acts[0]), acts[1..], id, inputs)
  }

  predicate Underway<T>(stage: Stage<T>) { stage.Idle? || stage.Calling? || stage.Returned? }

  /** The working document carries everything the stored one has finished. */
  predicate Covers(state: EnrichedListing, stored: EnrichedListing) {
    && (stored.llmDone ==> state.llmDone && state.options == stored.options)
    && (stored.cvDone ==> state.cvDone && state.defects == stored.defects)
  }

  predicate AttemptOk(s: State, x: Attempt, id: ListingId, inputs: Fingerprint) {
    && EnrichmentFingerprint(x.listing) == inputs
    && match x.pc
       case Prepare(existing) => existing == Lookup(s.docs, id)
       case Stages(state, llm, cv) =>
         && state.raw == x.listing
         && (state.llmDone ==> !Underway(llm))
         && (state.cvDone ==> !Underway(cv))
         && (id in s.docs ==> Covers(state, s.docs[id]))
       case Finalize(state) => state.raw == x.listing && (id in s.docs ==> Covers(state, s.docs[id]))
       case _ => true
  }

  ghost predicate Inv(s: State, id: ListingId, inputs: Fingerprint) {
    && (id in s.docs ==> EnrichmentFingerprint(s.docs[id].raw) == inputs)
    && (forall t :: t in s.attempts && On(s.attempts[t], id) && s.attempts[t].Running() ==>
          AttemptOk(s, s.attempts[t], id, inputs))
    && (forall t, u :: t in s.attempts && u in s.attempts && t != u ==> Turns(s.attempts[t], s.attempts[u], id))
    && (forall t :: t in s.attempts ==> Own(s.attempts[t]))
  }

  /** Attempts write their own listing only. */
  predicate Own(x: Attempt) {
    match x.pc
    case Stages(state, _, _) => state.raw == x.listing
    case Finalize(state) => state.raw == x.listing
    case _ => true
  }

  predicate Turns(x: Attempt, y: Attempt, id: ListingId) {
    !(On(x, id) && On(y, id) && x.Running() && y.Running())
  }

  /** A step leaves what is finished as it is. */
  predicate KeepsProgress(s: State, u: State, id: ListingId) {
    id in s.docs ==> id in u.docs && Covers(u.docs[id], s.docs[id])
  }

  predicate ActsOn(s: State, a: Action, id: ListingId) {
    Actor(a).Some? && Actor(a).value in s.attempts && On(s.attempts[Actor(a).value], id)
  }

  /** Steps that are not about this listing do not touch its document. */
  lemma Elsewhere(s: State, a: Action, id: ListingId)
    requires Enabled(s, a) && !ActsOn(s, a, id)
    requires a.EnqueueRaw? ==> a.listing.externalId != id
    requires forall t :: t in s.attempts ==> Own(s.attempts[t])
    ensures Lookup(Apply(s, a).docs, id) == Lookup(s.docs, id)
  {
    var actor := Actor(a);
    if actor.Some? && actor.value in s.attempts {
      assert Own(s.attempts[actor.value]);
    }
  }

  /** What a step of the one running attempt keeps. */
  ghost predicate StepOk(s: State, a: Action, t: nat, id: ListingId, inputs: Fingerprint)
    requires Enabled(s, a)
  {
    var u := Apply(s, a);
    && KeepsProgress(s, u, id)
    && (id in u.docs ==> EnrichmentFingerprint(u.docs[id].raw) == inputs)
    && (t in u.attempts && u.attempts[t].Running() ==> AttemptOk(u, u.attempts[t], id, inputs))
  }

  ghost predicate Ready(s: State, a: Action, t: nat, id: ListingId, inputs: Fingerprint) {
    && Enabled(s, a) && Actor(a) == Some(t) && t in s.attempts && On(s.attempts[t], id)
    && (s.attempts[t].Running() ==> AttemptOk(s, s.attempts[t], id, inputs))
    && (id in s.docs ==> EnrichmentFingerprint(s.docs[id].raw) == inputs)
  }

  lemma CallStep(s: State, a: Action, t: nat, id: ListingId, inputs: Fingerprint)
    requires Ready(s, a, t, id, inputs)
    requires a.LlmCall? || a.LlmReturn? || a.LlmRaise? || a.CvCall? || a.CvReturn? || a.CvRaise? || a.Gather?
    ensures StepOk(s, a, t, id, inputs)
  {
  }

  lemma LlmStoreStep(s: State, a: Action, t: nat, id: ListingId, inputs: Fingerprint)
    requires Ready(s, a, t, id, inputs) && (a.LlmStore? || a.LlmStoreRaise?)
    ensures StepOk(s, a, t, id, inputs)
  {
  }

  lemma CvStoreStep(s: State, a: Action, t: nat, id: ListingId, inputs: Fingerprint)
    requires Ready(s, a, t, id, inputs) && (a.CvStore? || a.CvStoreRaise?)
    ensures StepOk(s, a, t, id, inputs)
  {
  }

  lemma EdgeStep(s: State, a: Action, t: nat, id: ListingId, inputs: Fingerprint)
    requires Ready(s, a, t, id, inputs)
    requires a.Read? || a.WritePrepared? || a.WriteFinal? || a.DoPublish? || a.Drop?
    ensures StepOk(s, a, t, id, inputs)
  {
  }

  lemma RaiseStep(s: State, a: Action, t: nat, id: ListingId, inputs: Fingerprint)
    requires Ready(s, a, t, id, inputs) && a.Raise?
    ensures StepOk(s, a, t, id, inputs)
  {
  }

  /** A step of the one running attempt: the document only gains, and a stage is called only
      while its result is missing. */
  lemma OwnStep(s: State, a: Action, t: nat, id: ListingId, inputs: Fingerprint)
    requires Ready(s, a, t, id, inputs)
    ensures StepOk(s, a, t, id, inputs)
    ensures a.LlmCall? && id in s.docs ==> !s.docs[id].llmDone
    ensures a.CvCall? && id in s.docs ==> !s.docs[id].cvDone
  {
    if a.LlmStore? || a.LlmStoreRaise? {
      LlmStoreStep(s, a, t, id, inputs);
    } else if a.CvStore? || a.CvStoreRaise? {
      CvStoreStep(s, a, t, id, inputs);
    } else if a.Read? || a.WritePrepared? || a.WriteFinal? || a.DoPublish? || a.Drop? {
      EdgeStep(s, a, t, id, inputs);
    } else if a.Raise? {
      RaiseStep(s, a, t, id, inputs);
    } else {
      CallStep(s, a, t, id, inputs);
    }
  }

  lemma OwnListing(s: State, a: Action, t: nat)
    requires Enabled(s, a) && t in Apply(s, a).attempts
    requires t in s.attempts ==> Own(s.attempts[t])
    ensures Own(Apply(s, a).attempts[t])
  {
    if Actor(a) != Some(t) {
      Untouched(s, a, t);
    }
  }

  lemma TurnsStep(s: State, a: Action, id: ListingId, inputs: Fingerprint, t: nat, v: nat)
    requires Enabled(s, a) && Sequential(s, a, id, inputs)
    requires t in s.attempts && v in s.attempts ==> Turns(s.attempts[t], s.attempts[v], id)
    requires t in Apply(s, a).attempts && v in Apply(s, a).attempts && t != v
    ensures Turns(Apply(s, a).attempts[t], Apply(s, a).attempts[v], id)
  {
    if Actor(a) != Some(t) { Untouched(s, a, t); }
    if Actor(a) != Some(v) { Untouched(s, a, v); }
  }

  lemma RunningStep(s: State, a: Action, id: ListingId, inputs: Fingerprint, t: nat)
    requires Inv(s, id, inputs) && Enabled(s, a) && Sequential(s, a, id, inputs)
    requires var u := Apply(s, a); t in u.attempts && On(u.attempts[t], id) && u.attempts[t].Running()
    ensures var u := Apply(s, a); AttemptOk(u, u.attempts[t], id, inputs)
  {
    if t !in s.attempts {
    } else if Actor(a) == Some(t) {
      OwnStep(s, a, t, id, inputs);
    } else {
      Untouched(s, a, t);
      if ActsOn(s, a, id) {
        assert Turns(s.attempts[t], s.attempts[Actor(a).value], id);
        EndedIsInert(s, a, Actor(a).value);
      } else {
        Elsewhere(s, a, id);
      }
      SameDocument(s, Apply(s, a), s.attempts[t], id, inputs);
    }
  }

  lemma SameDocument(s: State, u: State, x: Attempt, id: ListingId, inputs: Fingerprint)
    requires Lookup(u.docs, id) == Lookup(s.docs, id) && AttemptOk(s, x, id, inputs)
    ensures AttemptOk(u, x, id, inputs)
  {
  }

  lemma InvStep(s: State, a: Action, id: ListingId, inputs: Fingerprint)
    requires Inv(s, id, inputs) && Enabled(s, a) && Sequential(s, a, id, inputs)
    ensures Inv(Apply(s, a), id, inputs)
    ensures KeepsProgress(s, Apply(s, a), id)
  {
    var u := Apply(s, a);
    if ActsOn(s, a, id) {
      OwnStep(s, a, Actor(a).value, id, inputs);
    } else {
      Elsewhere(s, a, id);
      assert id in u.docs ==> Lookup(u.docs, id) == Some(u.docs[id]);
    }
    forall t | t in u.attempts ensures Own(u.attempts[t]) {
      OwnListing(s, a, t);
    }
    forall t | t in u.attempts && On(u.attempts[t], id) && u.attempts[t].Running()
      ensures AttemptOk(u, u.attempts[t], id, inputs)
    {
      RunningStep(s, a, id, inputs, t);
    }
    forall t, v | t in u.attempts && v in u.attempts && t != v ensures Turns(u.attempts[t], u.attempts[v], id) {
      TurnsStep(s, a, id, inputs, t, v);
    }
  }

  /** The stage calls made at this listing during a run. */
  ghost predicate NeverCalled(s: State, acts: seq<Action>, id: ListingId, llm: bool)
    requires Valid(s, acts)
    decreases |acts|
  {
    acts != [] ==>
      && (ActsOn(s, acts[0], id) ==> if llm then !acts[0].LlmCall? else !acts[0].CvCall?)
      && NeverCalled(Apply(s, acts[0]), acts[1..], id, llm)
  }

  /** A start: nobody is at work on the listing, and its document, if any, is on these inputs. */
  ghost predicate Init(s: State, id: ListingId, inputs: Fingerprint) {
    && s.attempts == map[]
    && (id in s.docs ==> EnrichmentFingerprint(s.docs[id].raw) == inputs)
  }

  /** From any point of such a run on: a stage whose flag is stored is never called again, and
      its stored result stays what it is, through failures of the other stage, writes that
      raise, crashes at any await and further attempts. */
  lemma {:induction false} FinishedWorkIsKept(s: State, acts: seq<Action>, id: ListingId, inputs: Fingerprint)
    requires (Init(s, id, inputs) || Inv(s, id, inputs)) && Valid(s, acts) && AllSequential(s, acts, id, inputs)
    ensures KeepsProgress(s, Exec(s, acts), id) && Inv(Exec(s, acts), id, inputs)
    ensures id in s.docs && s.docs[id].llmDone ==> NeverCalled(s, acts, id, true)
    ensures id in s.docs && s.docs[id].cvDone ==> NeverCalled(s, acts, id, false)
    decreases |acts|
  {
    if acts != [] {
      InvStep(s, acts[0], id, inputs);
      if ActsOn(s, acts[0], id) {
        OwnStep(s, acts[0], Actor(acts[0]).value, id, inputs);
      }
      FinishedWorkIsKept(Apply(s, acts[0]), acts[1..], id, inputs);
    }
  }
}

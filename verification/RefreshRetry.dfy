/** What a retried request is sent with (`apiClient.ts`): where promise reactions run before any other event,
    as they do in the browser, the access token issued by the very refresh that the request waited for. */
module RefreshRetry {
  import opened Text
  import opened Refresh

  predicate Awaits(w: World, i: nat, f: nat) {
    i < |w.requests| && w.requests[i].pc.Waiting? && w.requests[i].pc.flight == f
  }

  /** A settled refresh whose cleanup, or some of whose waiting requests, are still to run. */
  ghost predicate Draining(w: World, f: nat) {
    f < |w.flights| && (w.flights[f].Settled? || (w.flights[f].Cleared? && exists i: nat :: Awaits(w, i, f)))
  }

  /** The cleanup and the waiting requests go first. */
  ghost predicate Prompt(w: World, e: Event) { e.Finally? || e.Resume? || forall f: nat :: !Draining(w, f) }

  ghost predicate PromptRun(start: World, es: seq<Event>) {
    FreshRun(start, es) && forall j :: 0 <= j < |es| ==> Prompt(Run(start, es[..j]), es[j])
  }

  /** One refresh drains at a time, and while it does the stored access token is the one it issued. */
  ghost predicate Drains(w: World) {
    && (forall f: nat, g: nat :: Draining(w, f) && Draining(w, g) ==> f == g)
    && (forall f: nat :: Draining(w, f) && w.flights[f].result.Refreshed? ==>
          w.access == Some(w.flights[f].result.access))
    && (forall i: nat :: i < |w.requests| && w.requests[i].pc.Waiting? ==> w.requests[i].auth)
  }

  /** From a state where nothing drains, a step that settles nothing and clears nothing. */
  lemma StillQuiet(w: World, w': World)
    requires forall f: nat :: !Draining(w, f)
    requires |w.flights| <= |w'.flights| && forall f :: 0 <= f < |w.flights| ==> w'.flights[f] == w.flights[f]
    requires forall f :: |w.flights| <= f < |w'.flights| ==> w'.flights[f].Outstanding?
    requires forall i: nat, f: nat :: Awaits(w', i, f) && f < |w.flights| && w.flights[f].Cleared? ==> Awaits(w, i, f)
    requires forall i: nat :: i < |w'.requests| && w'.requests[i].pc.Waiting? ==> w'.requests[i].auth
    ensures Drains(w')
  {
    forall f: nat ensures !Draining(w', f) {
      assert !Draining(w, f);
      forall i: nat ensures Awaits(w', i, f) && f < |w.flights| && w.flights[f].Cleared? ==> Awaits(w, i, f) {}
    }
  }

  lemma RespondDrains(w: World, i: nat, status: nat)
    requires Inv(w) && Drains(w) && i < |w.requests| && w.requests[i].pc.Calling? && forall f: nat :: !Draining(w, f)
    ensures Drains(RespondStep(w, i, status))
  {
    hide Tokens, Fetches, NeverAgain, Presented;
    var w' := RespondStep(w, i, status);
    forall k: nat, f: nat | Awaits(w', k, f) && f < |w.flights| && w.flights[f].Cleared? ensures Awaits(w, k, f) {}
    StillQuiet(w, w');
  }

  lemma SettleDrains(w: World, w': World, f: nat, result: Settlement)
    requires Drains(w) && (forall g: nat :: !Draining(w, g)) && f < |w.flights|
    requires w'.flights == w.flights[f := Settled(result)] && w'.requests == w.requests
    requires result.Refreshed? ==> w'.access == Some(result.access)
    ensures Drains(w')
  {
    forall g: nat | g != f ensures !Draining(w', g) {
      assert !Draining(w, g);
      forall i: nat ensures Awaits(w', i, g) ==> Awaits(w, i, g) {}
    }
  }

  lemma FinallyDrains(w: World, f: nat)
    requires Drains(w) && f < |w.flights| && w.flights[f].Settled?
    ensures Drains(Step(w, Finally(f)))
  {
    var w' := Step(w, Finally(f));
    assert Draining(w, f);
    forall g: nat | Draining(w', g) ensures Draining(w, g) {
      if g != f && w.flights[g].Cleared? {
        var i: nat :| Awaits(w', i, g);
        assert Awaits(w, i, g);
      }
    }
  }

  lemma ResumeDrains(w: World, i: nat)
    requires Drains(w) && i < |w.requests| && w.requests[i].pc.Waiting? && w.requests[i].pc.flight < |w.flights|
    requires w.flights[w.requests[i].pc.flight].Cleared?
    ensures Drains(Step(w, Resume(i)))
  {
    var f, w' := w.requests[i].pc.flight, Step(w, Resume(i));
    assert Awaits(w, i, f) && Draining(w, f);
    forall g: nat | Draining(w', g) ensures Draining(w, g) && w'.flights[g] == w.flights[g] {
      if w.flights[g].Cleared? {
        var k: nat :| Awaits(w', k, g);
        assert Awaits(w, k, g);
      }
    }
  }

  lemma DrainsStep(w: World, e: Event)
    requires Inv(w) && Drains(w) && Prompt(w, e)
    ensures Drains(Step(w, e))
  {
    hide Inv, Drains;
    match e
    case Call(auth) => CallDrains(w, auth);
    case Respond(i, status) =>
      if i < |w.requests| && w.requests[i].pc.Calling? { RespondDrains(w, i, status); }
    case NetworkError(i) => ErrorDrains(w, i);
    case RefreshOk(f, a, r) =>
      if f < |w.flights| && w.flights[f].Outstanding? { SettleDrains(w, Step(w, e), f, Refreshed(a)); }
    case RefreshRefused(f) =>
      if f < |w.flights| && w.flights[f].Outstanding? { SettleDrains(w, Step(w, e), f, Refused); }
    case RefreshThrows(f) =>
      if f < |w.flights| && w.flights[f].Outstanding? { SettleDrains(w, Step(w, e), f, Threw); }
    case Finally(f) => if f < |w.flights| && w.flights[f].Settled? { FinallyDrains(w, f); }
    case Resume(i) =>
      if i < |w.requests| && w.requests[i].pc.Waiting? && w.requests[i].pc.flight < |w.flights|
         && w.flights[w.requests[i].pc.flight].Cleared? { ResumeDrains(w, i); }
  }

  lemma CallDrains(w: World, auth: bool)
    requires Drains(w) && forall f: nat :: !Draining(w, f)
    ensures Drains(Step(w, Call(auth)))
  {
    var w' := Step(w, Call(auth));
    forall k: nat, f: nat | Awaits(w', k, f) ensures Awaits(w, k, f) {}
    StillQuiet(w, w');
  }

  lemma ErrorDrains(w: World, i: nat)
    requires Drains(w) && forall f: nat :: !Draining(w, f)
    ensures Drains(Step(w, NetworkError(i)))
  {
    var w' := Step(w, NetworkError(i));
    forall k: nat, f: nat | Awaits(w', k, f) ensures Awaits(w, k, f) {}
    StillQuiet(w, w');
  }

  lemma {:induction false} RunDrains(access: Token, refresh: Token, es: seq<Event>)
    requires PromptRun(Initial(access, refresh), es)
    ensures Drains(Run(Initial(access, refresh), es)) && Inv(Run(Initial(access, refresh), es))
  {
    hide Inv, Step, Fresh, Prompt;
    var start := Initial(access, refresh);
    RunInv(access, refresh, es);
    if es == [] {
      assert forall f: nat :: !Draining(start, f);
    } else {
      var before, last := es[..|es| - 1], es[|es| - 1];
      forall j | 0 <= j < |before|
        ensures Fresh(Run(start, before[..j]), before[j]) && Prompt(Run(start, before[..j]), before[j])
      {
        assert before[..j] == es[..j];
      }
      RunDrains(access, refresh, before);
      DrainsStep(Run(start, before), last);
    }
  }

  /** A request that retries is sent with the access token that the refresh it waited for has issued. */
  lemma RetryCarriesIssued(access: Token, refresh: Token, es: seq<Event>, e: Event, i: nat)
    requires PromptRun(Initial(access, refresh), es)
    requires var w := Run(Initial(access, refresh), es);
             i < |w.requests| && w.requests[i].pc.Waiting? && Step(w, e).requests[i].pc == Calling(true)
    ensures var w := Run(Initial(access, refresh), es);
            var f := w.requests[i].pc.flight;
            && f < |w.flights| && w.flights[f].Cleared? && w.flights[f].result.Refreshed?
            && Step(w, e).requests[i].carried == Some(w.flights[f].result.access)
  {
    hide Inv;
    RunDrains(access, refresh, es);
    var w := Run(Initial(access, refresh), es);
    var f := w.requests[i].pc.flight;
    assert Awaits(w, i, f);
    assert e == Resume(i);
    assert Draining(w, f);
  }

  // ------------------------------------------------------------------ one request

  /** Request `i` has waited for a refresh with this result, and goes on. */
  predicate GoesOn(w: World, e: Event, i: nat, result: Settlement) {
    && e == Resume(i) && i < |w.requests| && w.requests[i].pc.Waiting? && w.requests[i].pc.flight < |w.flights|
    && w.flights[w.requests[i].pc.flight] == Cleared(result)
  }

  /** The client keeps the tokens it has until a refresh issues new ones, or until a request learns that its
      refresh was refused, which signs out. */
  lemma StoreChanges(w: World, e: Event)
    ensures var w' := Step(w, e);
            && (w'.access != w.access || w'.refresh != w.refresh ==>
                  || (e.RefreshOk? && w'.access == Some(e.access) && w'.refresh == Some(e.refresh))
                  || (e.Resume? && GoesOn(w, e, e.i, Refused) && w'.access == w'.refresh == None))
            && (e.RefreshOk? && e.f < |w.flights| && w.flights[e.f].Outstanding? ==>
                  w'.access == Some(e.access) && w'.refresh == Some(e.refresh))
            && (e.Resume? && GoesOn(w, e, e.i, Refused) ==> w'.access == w'.refresh == None)
  {
  }

  /** A refresh token is presented only when an authorized first try meets a 401, and then it is the stored
      one; such a try never fails but waits. */
  lemma PresentsStored(w: World, e: Event, i: nat)
    requires i < |w.requests| && w.requests[i].pc.Calling?
    ensures var w' := Step(w, e);
            && (w'.requests[i].pc.Waiting? <==>
                  e == Respond(i, 401) && w.requests[i].auth && w.requests[i].pc == Calling(false) && w.refresh.Some?)
            && (w'.requests[i].pc.Waiting? && w.inFlight.None? ==> w'.log == w.log + [Present(w.refresh.value)])
            && (w'.requests[i].pc.Waiting? && w.inFlight.Some? ==> w'.log == w.log)
  {
  }

  /** How a request ends: with the answer when the server gives one in the 200s; as expired when its refresh
      was refused; and as failed with any other final answer, or without one. */
  lemma RequestEnds(w: World, e: Event, i: nat, outcome: Outcome)
    requires i < |w.requests| && !w.requests[i].pc.Finished? && Step(w, e).requests[i].pc == Finished(outcome)
    ensures match outcome
            case Returned => e.Respond? && e.i == i && 200 <= e.status < 300
            case Expired => GoesOn(w, e, i, Refused)
            case Failed(status) =>
              || (e.Respond? && e.i == i && e.status == status && !(200 <= status < 300))
              || (status == 0 && (e == NetworkError(i) || GoesOn(w, e, i, Threw)))
  {
  }
}

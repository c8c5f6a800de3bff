/** Single-flight token refresh (`apiClient.ts`, `session.ts`). Requests run one at a time between their
    `await`s; each event below is one such stretch of code, so a sequence of events is an interleaving. */
module Refresh {
  import opened Text

  type Token = nat

  // ------------------------------------------------------------------------ state

  datatype Settlement = Refreshed(access: Token) | Refused | Threw

  /** The promise of one refresh: waiting for the server, settled, or settled with the in-flight variable
      cleared, from when on those awaiting it may resume. */
  datatype Flight = Outstanding(token: Token) | Settled(result: Settlement) | Cleared(result: Settlement)

  datatype Outcome = Returned | Failed(status: nat) | Expired
  datatype Pc = Calling(retrying: bool) | Waiting(flight: nat) | Finished(outcome: Outcome)
  /** `carried` is the access token that the last fetch was sent with. */
  datatype Request = Request(auth: bool, pc: Pc, fetches: nat, carried: Option<Token>)

  /** What happened to refresh tokens, in order. */
  datatype Entry = Present(token: Token) | Rotate(token: Token)

  datatype World = World(
    access: Option<Token>, refresh: Option<Token>, inFlight: Option<nat>, flights: seq<Flight>,
    requests: seq<Request>, log: seq<Entry>, seen: set<Token>)

  datatype Event =
    | Call(auth: bool)
    | Respond(i: nat, status: nat)
    | NetworkError(i: nat)
    | RefreshOk(f: nat, access: Token, refresh: Token)
    | RefreshRefused(f: nat)
    | RefreshThrows(f: nat)
    | Finally(f: nat)
    | Resume(i: nat)

  function Initial(access: Token, refresh: Token): World {
    World(Some(access), Some(refresh), None, [], [], [], {refresh})
  }

  // ------------------------------------------------------------------------ steps

  /** What a fetch sent now carries. */
  function Bearer(w: World, auth: bool): Option<Token> { if auth then w.access else None }

  function At(w: World, i: nat, r: Request): World
    requires i < |w.requests|
  {
    w.(requests := w.requests[i := r])
  }

  /** `ensureRefresh`: join the refresh in flight, or start one with the stored token. */
  function Ensured(w: World, token: Token): World {
    if w.inFlight.Some? then w
    else w.(inFlight := Some(|w.flights|), flights := w.flights + [Outstanding(token)], log := w.log + [Present(token)])
  }

  function RespondStep(w: World, i: nat, status: nat): World
    requires i < |w.requests| && w.requests[i].pc.Calling?
  {
    var r := w.requests[i];
    if status == 401 && r.auth && !r.pc.retrying && w.refresh.Some? then
      var w' := Ensured(w, w.refresh.value);
      At(w', i, r.(pc := Waiting(w'.inFlight.value)))
    else At(w, i, r.(pc := Finished(if 200 <= status < 300 then Returned else Failed(status))))
  }

  function SettleStep(w: World, f: nat, result: Settlement): World
    requires f < |w.flights|
  {
    w.(flights := w.flights[f := Settled(result)])
  }

  function ResumeStep(w: World, i: nat, result: Settlement): World
    requires i < |w.requests|
  {
    var r := w.requests[i];
    match result
    case Refreshed(_) => At(w, i, r.(pc := Calling(true), fetches := r.fetches + 1, carried := Bearer(w, r.auth)))
    case Refused => At(w.(access := None, refresh := None), i, r.(pc := Finished(Expired)))
    case Threw => At(w, i, r.(pc := Finished(Failed(0))))
  }

  /** An event that is not enabled changes nothing. */
  function Step(w: World, e: Event): World {
    match e
    case Call(auth) => w.(requests := w.requests + [Request(auth, Calling(false), 1, Bearer(w, auth))])
    case Respond(i, status) =>
      if i < |w.requests| && w.requests[i].pc.Calling? then RespondStep(w, i, status) else w
    case NetworkError(i) =>
      if i < |w.requests| && w.requests[i].pc.Calling? then At(w, i, w.requests[i].(pc := Finished(Failed(0)))) else w
    case RefreshOk(f, a, r) =>
      if f < |w.flights| && w.flights[f].Outstanding? then
        SettleStep(w, f, Refreshed(a)).(access := Some(a), refresh := Some(r), seen := w.seen + {r},
                                    log := w.log + [Rotate(w.flights[f].token)])
      else w
    case RefreshRefused(f) => if f < |w.flights| && w.flights[f].Outstanding? then SettleStep(w, f, Refused) else w
    case RefreshThrows(f) => if f < |w.flights| && w.flights[f].Outstanding? then SettleStep(w, f, Threw) else w
    case Finally(f) =>
      if f < |w.flights| && w.flights[f].Settled? then
        w.(flights := w.flights[f := Cleared(w.flights[f].result)], inFlight := None)
      else w
    case Resume(i) =>
      if i < |w.requests| && w.requests[i].pc.Waiting? && w.requests[i].pc.flight < |w.flights|
         && w.flights[w.requests[i].pc.flight].Cleared?
      then ResumeStep(w, i, w.flights[w.requests[i].pc.flight].result)
      else w
  }

  function Run(start: World, es: seq<Event>): World {
    if es == [] then start else Step(Run(start, es[..|es| - 1]), es[|es| - 1])
  }

  // --------------------------------------------------------------------- invariant

  /** The in-flight variable points at the newest refresh until that one's cleanup, and every other
      refresh is over. */
  predicate SingleFlight(w: World) {
    && (w.inFlight.Some? ==> w.inFlight.value == |w.flights| - 1 && !w.flights[w.inFlight.value].Cleared?)
    && forall f :: 0 <= f < |w.flights| && w.inFlight != Some(f) ==> w.flights[f].Cleared?
  }

  predicate Counts(w: World, r: Request) {
    match r.pc
    case Calling(retrying) => r.fetches == if retrying then 2 else 1
    case Waiting(f) => r.fetches == 1 && f < |w.flights|
    case Finished(_) => 1 <= r.fetches <= 2
  }

  predicate Fetches(w: World) { forall i :: 0 <= i < |w.requests| ==> Counts(w, w.requests[i]) }

  predicate NeverAgain(log: seq<Entry>) {
    forall i, j :: 0 <= i < j < |log| && log[i].Rotate? ==> log[j] != Present(log[i].token)
  }

  predicate Spent(w: World, t: Token) { Rotate(t) in w.log }

  predicate Tokens(w: World) {
    && NeverAgain(w.log)
    && (forall e :: e in w.log ==> e.token in w.seen)
    && (w.refresh.Some? ==> w.refresh.value in w.seen && !Spent(w, w.refresh.value))
    && (forall f :: 0 <= f < |w.flights| && w.flights[f].Outstanding? ==>
          w.flights[f].token in w.seen && !Spent(w, w.flights[f].token))
  }

  /** How many refresh calls have been sent to the server. */
  function Presented(log: seq<Entry>): nat {
    if log == [] then 0 else (if log[|log| - 1].Present? then 1 else 0) + Presented(log[..|log| - 1])
  }

  predicate Inv(w: World) { SingleFlight(w) && Fetches(w) && Tokens(w) && Presented(w.log) == |w.flights| }

  /** The server issues refresh tokens that were never in use. */
  predicate Fresh(w: World, e: Event) { e.RefreshOk? ==> e.refresh !in w.seen }

  lemma PresentedAppend(log: seq<Entry>, e: Entry)
    ensures Presented(log + [e]) == Presented(log) + if e.Present? then 1 else 0
  {
    assert (log + [e])[..|log|] == log;
  }

  lemma RespondInv(w: World, i: nat, status: nat)
    requires Inv(w) && i < |w.requests| && w.requests[i].pc.Calling?
    ensures Inv(RespondStep(w, i, status))
  {
    if w.refresh.Some? { PresentedAppend(w.log, Present(w.refresh.value)); }
  }

  lemma RotateInv(w: World, f: nat, a: Token, r: Token)
    requires Inv(w) && f < |w.flights| && w.flights[f].Outstanding? && r !in w.seen
    ensures Inv(Step(w, RefreshOk(f, a, r)))
  {
    PresentedAppend(w.log, Rotate(w.flights[f].token));
    assert w.inFlight == Some(f);
    assert Spent(w, r) ==> Rotate(r).token in w.seen;
  }

  lemma StepInv(w: World, e: Event)
    requires Inv(w) && Fresh(w, e)
    ensures Inv(Step(w, e))
  {
    hide Inv, RespondStep;
    match e
    case Respond(i, status) => if i < |w.requests| && w.requests[i].pc.Calling? { RespondInv(w, i, status); }
    case RefreshOk(f, a, r) => if f < |w.flights| && w.flights[f].Outstanding? { RotateInv(w, f, a, r); }
    case Call(_) => QuietInv(w, e);
    case NetworkError(_) => QuietInv(w, e);
    case Resume(_) => QuietInv(w, e);
    case _ => FlightInv(w, e);
  }

  /** Events that leave every refresh alone. */
  lemma QuietInv(w: World, e: Event)
    requires Inv(w) && (e.Call? || e.NetworkError? || e.Resume?)
    ensures Inv(Step(w, e))
  {
    hide NeverAgain, Presented;
  }

  /** Events of a refresh that rotate nothing. */
  lemma FlightInv(w: World, e: Event)
    requires Inv(w) && (e.RefreshRefused? || e.RefreshThrows? || e.Finally?)
    ensures Inv(Step(w, e))
  {
    hide NeverAgain, Presented;
  }

  predicate FreshRun(start: World, es: seq<Event>) {
    forall j :: 0 <= j < |es| ==> Fresh(Run(start, es[..j]), es[j])
  }

  /** Over every interleaving with a server that issues fresh tokens the invariant holds. */
  lemma {:induction false} RunInv(access: Token, refresh: Token, es: seq<Event>)
    requires FreshRun(Initial(access, refresh), es)
    ensures Inv(Run(Initial(access, refresh), es))
  {
    hide Inv, Step, Fresh;
    var start := Initial(access, refresh);
    if es == [] {
      InitialInv(access, refresh);
    } else {
      var before := es[..|es| - 1];
      forall j | 0 <= j < |before| ensures Fresh(Run(start, before[..j]), before[j]) {
        assert before[..j] == es[..j];
      }
      RunInv(access, refresh, before);
      StepInv(Run(start, before), es[|es| - 1]);
    }
  }

  lemma InitialInv(access: Token, refresh: Token)
    ensures Inv(Initial(access, refresh))
  {
  }

  // ------------------------------------------------------------------- consequences

  /** At most one refresh is outstanding, no request makes more than two fetches, and a refresh token
      that was rotated is never presented again, in any interleaving. */
  lemma RefreshIsSingleFlight(access: Token, refresh: Token, es: seq<Event>)
    requires FreshRun(Initial(access, refresh), es)
    ensures var w := Run(Initial(access, refresh), es);
            && (forall f, g :: 0 <= f < g < |w.flights| ==> !(w.flights[f].Outstanding? && w.flights[g].Outstanding?))
            && (forall i :: 0 <= i < |w.requests| ==> w.requests[i].fetches <= 2)
            && NeverAgain(w.log)
  {
    RunInv(access, refresh, es);
    var w := Run(Initial(access, refresh), es);
    forall i | 0 <= i < |w.requests| ensures w.requests[i].fetches <= 2 { assert Counts(w, w.requests[i]); }
  }

  /** What becomes of a request that was calling when refresh `f` was in flight, until `f` is cleaned up. */
  predicate Joins(r: Request, f: nat) { r.pc.Waiting? ==> r.pc.flight == f }

  lemma CoalescesStep(w: World, e: Event, f: nat, i: nat)
    requires Inv(w) && w.inFlight == Some(f) && e != Finally(f)
    ensures var w' := Step(w, e);
            && w'.inFlight == Some(f) && |w'.flights| == |w.flights| && |w'.requests| >= |w.requests|
            && (i < |w.requests| && Joins(w.requests[i], f) ==> Joins(w'.requests[i], f))
  {
    hide NeverAgain, Presented, Tokens;
  }

  /** From any state with a refresh in flight and until its cleanup, however many requests meet a 401: no
      further refresh is sent, and every request that comes to wait waits for that one. */
  lemma {:induction false} Coalesces(start: World, es: seq<Event>, f: nat)
    requires Inv(start) && start.inFlight == Some(f) && FreshRun(start, es) && Finally(f) !in es
    ensures var w := Run(start, es);
            && Inv(w) && w.inFlight == Some(f) && |w.requests| >= |start.requests|
            && |w.flights| == |start.flights| && Presented(w.log) == Presented(start.log)
            && (forall i :: 0 <= i < |start.requests| && start.requests[i].pc.Calling? ==> Joins(w.requests[i], f))
  {
    hide Step, Fresh, SingleFlight, Fetches, Tokens, Joins;
    if es == [] {
      forall i | 0 <= i < |start.requests| && start.requests[i].pc.Calling? ensures Joins(start.requests[i], f) {
        CallingJoins(start.requests[i], f);
      }
    } else {
      var before, last := es[..|es| - 1], es[|es| - 1];
      forall j | 0 <= j < |before| ensures Fresh(Run(start, before[..j]), before[j]) {
        assert before[..j] == es[..j];
      }
      Coalesces(start, before, f);
      var w := Run(start, before);
      assert last in es;
      StepInv(w, last);
      CoalescesStep(w, last, f, 0);
      forall i: nat | i < |start.requests| && start.requests[i].pc.Calling?
        ensures i < |Step(w, last).requests| && Joins(Step(w, last).requests[i], f)
      {
        CoalescesStep(w, last, f, i);
      }
    }
  }

  lemma CallingJoins(r: Request, f: nat)
    requires r.pc.Calling?
    ensures Joins(r, f)
  {
  }

  /** A retry happens only on the strength of a refresh that succeeded, and a 401 on the retry is final. */
  lemma RetriesOnce(w: World, e: Event, i: nat)
    requires i < |w.requests| && Inv(w)
    ensures var r, r' := w.requests[i], Step(w, e).requests[i];
            && (r'.pc == Calling(true) && r.pc != Calling(true) ==>
                  r.pc.Waiting? && w.flights[r.pc.flight].Cleared? && w.flights[r.pc.flight].result.Refreshed?)
            && (r.pc == Calling(true) && r' != r ==> r'.pc.Finished? && r'.fetches == r.fetches)
  {
  }

  // ------------------------------------------------------------------- the client

  /** The module state and the store it reads, one method per stretch between awaits. */
  class ApiClient {
    var access: Option<Token>
    var refresh: Option<Token>
    var refreshInFlight: Option<nat>
    var flights: seq<Flight>
    var requests: seq<Request>
    ghost var log: seq<Entry>
    ghost var seen: set<Token>

    ghost function State(): World
      reads this
    {
      World(access, refresh, refreshInFlight, flights, requests, log, seen)
    }

    constructor (accessToken: Token, refreshToken: Token)
      ensures State() == Initial(accessToken, refreshToken) && Inv(State())
    {
      access, refresh := Some(accessToken), Some(refreshToken);
      refreshInFlight, flights, requests := None, [], [];
      log, seen := [], {refreshToken};
    }

    method Send(auth: bool) returns (i: nat)
      requires Inv(State())
      modifies this
      ensures State() == Step(old(State()), Call(auth)) && Inv(State()) && i == |old(requests)|
    {
      StepInv(State(), Call(auth));
      i := |requests|;
      requests := requests + [Request(auth, Calling(false), 1, if auth then access else None)];
    }

    /** `ensureRefresh`, with `performRefresh` up to its first await. */
    method EnsureRefresh(token: Token) returns (flight: nat)
      modifies this
      ensures State() == Ensured(old(State()), token) && refreshInFlight == Some(flight)
    {
      if refreshInFlight.None? {
        refreshInFlight := Some(|flights|);
        flights := flights + [Outstanding(token)];
        log := log + [Present(token)];
      }
      flight := refreshInFlight.value;
    }

    method OnResponse(i: nat, status: nat)
      requires Inv(State()) && i < |requests| && requests[i].pc.Calling?
      modifies this
      ensures State() == Step(old(State()), Respond(i, status)) && Inv(State())
    {
      StepInv(State(), Respond(i, status));
      var r := requests[i];
      if status == 401 && r.auth && !r.pc.retrying && refresh.Some? {
        var f := EnsureRefresh(refresh.value);
        requests := requests[i := r.(pc := Waiting(f))];
      } else {
        requests := requests[i := r.(pc := Finished(if 200 <= status < 300 then Returned else Failed(status)))];
      }
    }

    /** The fetch itself failed. */
    method OnNetworkError(i: nat)
      requires Inv(State()) && i < |requests| && requests[i].pc.Calling?
      modifies this
      ensures State() == Step(old(State()), NetworkError(i)) && Inv(State())
    {
      StepInv(State(), NetworkError(i));
      requests := requests[i := requests[i].(pc := Finished(Failed(0)))];
    }

    /** The server refused the refresh token: nothing is stored. */
    method OnRefused(f: nat)
      requires Inv(State()) && f < |flights| && flights[f].Outstanding?
      modifies this
      ensures State() == Step(old(State()), RefreshRefused(f)) && Inv(State())
    {
      StepInv(State(), RefreshRefused(f));
      flights := flights[f := Settled(Refused)];
    }

    /** The refresh call itself failed: nothing is stored. */
    method OnThrew(f: nat)
      requires Inv(State()) && f < |flights| && flights[f].Outstanding?
      modifies this
      ensures State() == Step(old(State()), RefreshThrows(f)) && Inv(State())
    {
      StepInv(State(), RefreshThrows(f));
      flights := flights[f := Settled(Threw)];
    }

    /** The rest of `performRefresh` after an accepted response: the new pair replaces the old one. */
    method OnRefreshed(f: nat, a: Token, r: Token)
      requires Inv(State()) && f < |flights| && flights[f].Outstanding? && Fresh(State(), RefreshOk(f, a, r))
      modifies this
      ensures State() == Step(old(State()), RefreshOk(f, a, r)) && Inv(State())
    {
      StepInv(State(), RefreshOk(f, a, r));
      log := log + [Rotate(flights[f].token)];
      access, refresh := Some(a), Some(r);
      seen := seen + {r};
      flights := flights[f := Settled(Refreshed(a))];
    }

    /** The `finally` block. */
    method OnFinally(f: nat)
      requires Inv(State()) && f < |flights| && flights[f].Settled?
      modifies this
      ensures State() == Step(old(State()), Finally(f)) && Inv(State())
    {
      StepInv(State(), Finally(f));
      flights := flights[f := Cleared(flights[f].result)];
      refreshInFlight := None;
    }

    /** What `send` does once the refresh it awaited has resolved. */
    method OnResume(i: nat)
      requires Inv(State()) && i < |requests| && requests[i].pc.Waiting?
      requires requests[i].pc.flight < |flights| && flights[requests[i].pc.flight].Cleared?
      modifies this
      ensures State() == Step(old(State()), Resume(i)) && Inv(State())
    {
      StepInv(State(), Resume(i));
      var r := requests[i];
      match flights[r.pc.flight].result {
        case Refreshed(_) =>
          requests := requests[i := r.(pc := Calling(true), fetches := r.fetches + 1,
                                       carried := if r.auth then access else None)];
        case Refused =>
          access, refresh := None, None;
          requests := requests[i := r.(pc := Finished(Expired))];
        case Threw => requests := requests[i := r.(pc := Finished(Failed(0)))];
      }
    }
  }
}

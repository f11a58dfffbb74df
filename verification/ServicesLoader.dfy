/** `loadServices`: overlapping loads of the service list, ordered by tokens. A load may join the one
    in flight; a response lands only while no newer load has been started. */
module ServicesLoader {

  datatype Option<+T> = None | Some(value: T)

  type Services = seq<string>

  datatype Result = Resolved(services: Services) | Rejected(superseded: bool)

  /** The load with token t is `loads[t - 1]`; it is settled once it has a result. */
  datatype Load = Load(background: bool, requireFresh: bool, result: Option<Result>)

  datatype InFlight = InFlight(background: bool, token: nat)

  /** `shown` and `error` are what the provider displays, `latest` the newest token, `commits` the
      history of responses that landed. */
  datatype State = State(
    mounted: bool, current: Services, hasLoaded: bool, inFlight: Option<InFlight>, latest: nat,
    shown: Services, loading: bool, error: bool, loads: seq<Load>, commits: seq<(nat, Services)>)

  datatype Step =
    | Mount | Unmount | Call(background: bool, requireFresh: bool)
    | Response(token: nat, services: Services) | Failure(token: nat)

  const INIT := State(false, [], false, None, 0, [], true, false, [], [])

  predicate Pending(s: State, token: nat) {
    0 < token <= |s.loads| && s.loads[token - 1].result.None?
  }

  /** Loads are asked for while mounted, and fresh ones are never in the background. */
  predicate Enabled(s: State, step: Step) {
    match step
    case Mount => !s.mounted
    case Unmount => s.mounted
    case Call(background, requireFresh) => s.mounted && (requireFresh ==> !background)
    case Response(token, _) => Pending(s, token)
    case Failure(token) => Pending(s, token)
  }

  /** Whether a call is answered with the promise of the load in flight. */
  predicate Joins(s: State, background: bool, requireFresh: bool) {
    s.inFlight.Some? && !requireFresh && (background || !s.inFlight.value.background)
  }

  function AfterCall(s: State, background: bool, requireFresh: bool): State {
    if Joins(s, background, requireFresh) then s else
    s.(latest := s.latest + 1, loading := s.loading || (!background && s.mounted),
       loads := s.loads + [Load(background, requireFresh, None)],
       inFlight := Some(InFlight(background, s.latest + 1)))
  }

  /** The finally block. */
  function Settle(s: State, token: nat, result: Result): State
    requires 0 < token <= |s.loads|
  {
    var isCurrent := s.inFlight.Some? && s.inFlight.value.token == token;
    s.(loads := s.loads[token - 1 := s.loads[token - 1].(result := Some(result))],
       loading := s.loading && !(!s.loads[token - 1].background && s.mounted && isCurrent),
       inFlight := if isCurrent then None else s.inFlight)
  }

  function After(s: State, step: Step): State
    requires Enabled(s, step)
  {
    match step
    case Mount => AfterCall(s.(mounted := true), false, false)
    case Unmount => s.(mounted := false)
    case Call(background, requireFresh) => AfterCall(s, background, requireFresh)
    case Response(token, services) =>
      if s.latest == token then
        var s := s.(current := services, hasLoaded := true, commits := s.commits + [(token, services)],
                    shown := if s.mounted then services else s.shown, error := s.error && !s.mounted);
        Settle(s, token, Resolved(services))
      else Settle(s, token, if s.loads[token - 1].requireFresh then Rejected(true) else Resolved(s.current))
    case Failure(token) =>
      var s := s.(error := s.error || (s.mounted && s.latest == token));
      Settle(s, token, if s.loads[token - 1].requireFresh then Rejected(false) else Resolved(s.current))
  }

  function Exec(s: State, steps: seq<Step>): Option<State>
    decreases steps
  {
    if steps == [] then Some(s)
    else if Enabled(s, steps[0]) then Exec(After(s, steps[0]), steps[1..])
    else None
  }

  // ---- The invariant

  /** The record in flight is that of the newest load, for as long as that is pending. */
  ghost predicate Newest(s: State) {
    && s.latest == |s.loads|
    && s.inFlight == (if Pending(s, s.latest) then Some(InFlight(s.loads[s.latest - 1].background, s.latest)) else None)
  }

  ghost predicate CommitsOrdered(s: State) {
    && (forall i, j | 0 <= i < j < |s.commits| :: s.commits[i].0 < s.commits[j].0)
    && (forall i | 0 <= i < |s.commits| :: 0 < s.commits[i].0 <= s.latest && !Pending(s, s.commits[i].0))
    && (s.hasLoaded <==> s.commits != [])
    && s.current == (if s.commits == [] then [] else s.commits[|s.commits| - 1].1)
  }

  /** A fresh load that resolves does so with its own response, which landed. */
  ghost predicate FreshIsOwn(s: State) {
    forall i | 0 <= i < |s.loads| && s.loads[i].requireFresh && s.loads[i].result.Some? ::
      s.loads[i].result.value.Resolved? ==> (i + 1, s.loads[i].result.value.services) in s.commits
  }

  ghost predicate LoadingShown(s: State) {
    && (s.loads == [] ==> !s.mounted)
    && (s.inFlight.Some? && !s.inFlight.value.background ==> s.loading)
    && (s.mounted && s.loading ==> s.inFlight.Some? && !s.inFlight.value.background)
    && (forall i | 0 <= i < |s.loads| :: s.loads[i].requireFresh ==> !s.loads[i].background)
  }

  ghost predicate Inv(s: State) {
    Newest(s) && CommitsOrdered(s) && FreshIsOwn(s) && LoadingShown(s)
  }

  lemma CallKeepsNewest(s: State, background: bool, requireFresh: bool)
    requires Newest(s)
    ensures Newest(AfterCall(s, background, requireFresh))
  {
  }

  lemma SettleKeepsNewest(s: State, token: nat, result: Result)
    requires Newest(s) && Pending(s, token)
    ensures Newest(Settle(s, token, result))
  {
  }

  lemma StepKeepsNewest(s: State, step: Step)
    requires Newest(s) && Enabled(s, step)
    ensures Newest(After(s, step))
  {
    match step {
      case Mount => CallKeepsNewest(s.(mounted := true), false, false);
      case Unmount =>
      case Call(background, requireFresh) => CallKeepsNewest(s, background, requireFresh);
      case Response(token, services) =>
        if s.latest == token {
          SettleKeepsNewest(s.(current := services, hasLoaded := true, commits := s.commits + [(token, services)],
                               shown := if s.mounted then services else s.shown, error := s.error && !s.mounted),
                            token, Resolved(services));
        } else {
          SettleKeepsNewest(s, token, if s.loads[token - 1].requireFresh then Rejected(true) else Resolved(s.current));
        }
      case Failure(token) =>
        SettleKeepsNewest(s.(error := s.error || (s.mounted && s.latest == token)), token,
                          if s.loads[token - 1].requireFresh then Rejected(false) else Resolved(s.current));
    }
  }

  lemma SettledStays(s: State, step: Step, token: nat)
    requires Newest(s) && Enabled(s, step) && 0 < token <= s.latest && !Pending(s, token)
    ensures !Pending(After(s, step), token) && token <= After(s, step).latest
  {
  }

  lemma LandingKeepsCommits(s: State, services: Services)
    requires Newest(s) && CommitsOrdered(s) && Pending(s, s.latest)
    ensures CommitsOrdered(After(s, Response(s.latest, services)))
  {
    var s' := After(s, Response(s.latest, services));
    assert s'.commits == s.commits + [(s.latest, services)] && s'.latest == s.latest;
    assert !Pending(s', s.latest);
    forall i | 0 <= i < |s.commits|
      ensures s'.commits[i] == s.commits[i] && s.commits[i].0 < s.latest && !Pending(s', s.commits[i].0)
    {
      SettledStays(s, Response(s.latest, services), s.commits[i].0);
    }
  }

  lemma StepKeepsCommits(s: State, step: Step)
    requires Newest(s) && CommitsOrdered(s) && Enabled(s, step)
    ensures CommitsOrdered(After(s, step))
  {
    if step.Response? && s.latest == step.token {
      LandingKeepsCommits(s, step.services);
    } else {
      forall i | 0 <= i < |s.commits|
        ensures !Pending(After(s, step), s.commits[i].0) && s.commits[i].0 <= After(s, step).latest
      {
        SettledStays(s, step, s.commits[i].0);
      }
    }
  }

  lemma StepKeepsLoading(s: State, step: Step)
    requires Newest(s) && LoadingShown(s) && Enabled(s, step)
    ensures LoadingShown(After(s, step))
  {
  }

  lemma StepKeepsInv(s: State, step: Step)
    requires Inv(s) && Enabled(s, step)
    ensures Inv(After(s, step))
  {
    StepKeepsNewest(s, step);
    StepKeepsCommits(s, step);
    StepKeepsFresh(s, step);
    StepKeepsLoading(s, step);
  }

  lemma StepKeepsFresh(s: State, step: Step)
    requires Newest(s) && FreshIsOwn(s) && Enabled(s, step)
    ensures FreshIsOwn(After(s, step))
  {
    var s' := After(s, step);
    assert forall c | c in s.commits :: c in s'.commits;
    if step.Response? && s.latest == step.token {
      assert s'.commits[|s.commits|] == (step.token, step.services);
    }
  }

  lemma {:induction false} RunKeepsInv(s: State, steps: seq<Step>)
    requires Inv(s) && Exec(s, steps).Some?
    ensures Inv(Exec(s, steps).value)
    decreases steps
  {
    if steps != [] {
      StepKeepsInv(s, steps[0]);
      RunKeepsInv(After(s, steps[0]), steps[1..]);
    }
  }

  // ---- What every run keeps

  /** Responses land in strictly increasing token order, and the list held is that of the last one
      to land: a stale response never lands over a newer one. */
  lemma LatestWins(steps: seq<Step>)
    requires Exec(INIT, steps).Some?
    ensures var s := Exec(INIT, steps).value;
            && (forall i, j | 0 <= i < j < |s.commits| :: s.commits[i].0 < s.commits[j].0)
            && (s.commits != [] ==> s.current == s.commits[|s.commits| - 1].1)
  {
    RunKeepsInv(INIT, steps);
  }

  /** The record in flight always carries the newest token, and is there exactly while the newest
      load is pending; so whoever joins it joins the newest load. */
  lemma InFlightIsNewest(steps: seq<Step>)
    requires Exec(INIT, steps).Some?
    ensures var s := Exec(INIT, steps).value;
            && s.latest == |s.loads|
            && (s.inFlight.Some? <==> Pending(s, s.latest))
            && (s.inFlight.Some? ==> s.inFlight.value.token == s.latest)
  {
    RunKeepsInv(INIT, steps);
  }

  /** While mounted, the loading flag is up exactly when the load in flight is a foreground one. */
  lemma LoadingIffForeground(steps: seq<Step>)
    requires Exec(INIT, steps).Some? && Exec(INIT, steps).value.mounted
    ensures var s := Exec(INIT, steps).value;
            s.loading <==> s.inFlight.Some? && !s.inFlight.value.background
  {
    RunKeepsInv(INIT, steps);
  }

  /** A fresh load resolves only with its own response, and only if no newer load was started before
      it arrived; once one has been, nothing makes it resolve. */
  lemma FreshIsUncontested(steps: seq<Step>, token: nat)
    requires Exec(INIT, steps).Some?
    requires 0 < token <= |Exec(INIT, steps).value.loads| && Exec(INIT, steps).value.loads[token - 1].requireFresh
    ensures var s := Exec(INIT, steps).value; var load := s.loads[token - 1];
            load.result.Some? && load.result.value.Resolved? ==> (token, load.result.value.services) in s.commits
    ensures var s := Exec(INIT, steps).value;
            forall services :: Pending(s, token) && s.latest != token ==>
              After(s, Response(token, services)).loads[token - 1].result == Some(Rejected(true))
              && After(s, Response(token, services)).commits == s.commits
  {
    RunKeepsInv(INIT, steps);
  }

  // ---- The provider's refs and state

  class Provider {
    var mounted: bool
    var current: Services
    var hasLoaded: bool
    var inFlight: Option<InFlight>
    var latest: nat
    var shown: Services
    var loading: bool
    var error: bool
    var loads: seq<Load>
    ghost var commits: seq<(nat, Services)>

    constructor ()
      ensures S() == INIT
    {
      mounted, current, hasLoaded, inFlight, latest := false, [], false, None, 0;
      shown, loading, error, loads, commits := [], true, false, [], [];
    }

    ghost function S(): State
      reads this
    {
      State(mounted, current, hasLoaded, inFlight, latest, shown, loading, error, loads, commits)
    }

    /** The token of the load whose promise the call answers. */
    method LoadServices(background: bool, requireFresh: bool) returns (token: nat)
      modifies this
      ensures S() == AfterCall(old(S()), background, requireFresh)
      ensures inFlight.Some? && token == inFlight.value.token
    {
      if inFlight.Some? && !requireFresh {
        if background || !inFlight.value.background {
          return inFlight.value.token;
        }
      }
      token := latest + 1;
      latest := token;
      if !background && mounted {
        loading := true;
      }
      loads := loads + [Load(background, requireFresh, None)];
      inFlight := Some(InFlight(background, token));
    }

    method Finally(token: nat, result: Result)
      requires 0 < token <= |loads|
      modifies this`loads, this`loading, this`inFlight
      ensures S() == Settle(old(S()), token, result)
    {
      var isCurrent := inFlight.Some? && inFlight.value.token == token;
      if !loads[token - 1].background && mounted && isCurrent {
        loading := false;
      }
      if isCurrent {
        inFlight := None;
      }
      loads := loads[token - 1 := loads[token - 1].(result := Some(result))];
    }

    method Responded(token: nat, services: Services)
      requires Enabled(S(), Response(token, services))
      modifies this
      ensures S() == After(old(S()), Response(token, services))
    {
      var isLatest := latest == token;
      if isLatest {
        current := services;
        hasLoaded := true;
        commits := commits + [(token, services)];
      }
      if mounted && isLatest {
        shown := services;
        error := false;
      }
      if loads[token - 1].requireFresh && !isLatest {
        Finally(token, Rejected(true));
      } else {
        Finally(token, Resolved(if isLatest then services else current));
      }
    }

    method Failed(token: nat)
      requires Enabled(S(), Failure(token))
      modifies this
      ensures S() == After(old(S()), Failure(token))
    {
      if mounted && latest == token {
        error := true;
      }
      if loads[token - 1].requireFresh {
        Finally(token, Rejected(false));
      } else {
        Finally(token, Resolved(current));
      }
    }

    method Perform(step: Step)
      requires Enabled(S(), step)
      modifies this
      ensures S() == After(old(S()), step)
    {
      match step {
        case Mount =>
          mounted := true;
          var _ := LoadServices(false, false);
        case Unmount => mounted := false;
        case Call(background, requireFresh) => var _ := LoadServices(background, requireFresh);
        case Response(token, services) => Responded(token, services);
        case Failure(token) => Failed(token);
      }
    }

    /** Any interleaving: the object goes through exactly the states of the run. */
    method Play(steps: seq<Step>)
      requires Exec(S(), steps).Some?
      modifies this
      ensures S() == Exec(old(S()), steps).value
    {
      for k := 0 to |steps|
        invariant Exec(S(), steps[k..]) == Exec(old(S()), steps)
      {
        assert steps[k..][0] == steps[k] && steps[k..][1..] == steps[k + 1..];
        Perform(steps[k]);
      }
    }
  }
}

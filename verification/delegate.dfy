/** The splash-screen deeplink delegate as a state machine: its three fields,
    the `onAction` entry point, the onboarding check, `handleNavigation`, and the
    `isDelegateReady` setter. Each operation is one sequential step that returns
    the new state and the collaborator calls it made. */
module DeeplinkDelegate {
  import opened Wrappers
  import opened Text
  import opened UrlClassifier
  import opened Navigation

  /** `_isDelegateReady`, `isOnboardingCompleted` (empty: not fetched or not
      complete) and `savedUrlMatch` (None for `undefined`/`null`). */
  datatype Delegate = Delegate(ready: bool, onboarding: string, saved: Option<UrlMatch>)

  /** The state right after construction. */
  const Initial: Delegate := Delegate(false, "", None)

  /** The state after an operation and the effects it produced, in order. */
  datatype Step = Step(next: Delegate, effects: seq<Effect>)

  /** A pending match was stored after the onboarding check passed, while the
      delegate was not ready, and it captured a non-empty id. */
  predicate Inv(d: Delegate) {
    d.saved.Some? ==> !d.ready && d.onboarding != "" && |d.saved.value.value| > 0
  }

  /** `handleNavigation(urlMatch)`: dispatch when ready, otherwise park the
      match in the single slot, replacing whatever was there. */
  function HandleNavigation(d: Delegate, m: UrlMatch, env: Env): (r: Step)
    ensures !d.ready ==> r.next == d.(saved := Some(m)) && r.effects == []
    ensures d.ready ==> r.next == d
    ensures d.ready && |m.value| > 0 && m.kind == Dial
            ==> r.effects == [Navigate(Search, DialSearch(m.value, Home))]
    ensures d.ready && |m.value| > 0 && m.kind != Dial
            ==> r.effects == NavigateContent(m.value, true, env)
    ensures ReadOnboardingPreference !in r.effects
    ensures |Outcomes(r.effects)| <= 1
  {
    if d.ready then
      DispatchByKind(m, env);
      Step(d, Dispatch(GroupsOf(m), env))
    else
      Step(d.(saved := Some(m)), [])
  }

  /** `checkIfOnboardingComplete(urlMatch)`: read the preference only while the
      cached value is empty; go on to `handleNavigation` only once it is not.
      A rejected read ends the call with the cache still empty. */
  function CheckOnboarding(d: Delegate, m: UrlMatch, env: Env): (r: Step)
    ensures ReadOnboardingPreference in r.effects <==> d.onboarding == ""
    ensures d.onboarding == "" ==> r.effects[0] == ReadOnboardingPreference
    ensures d.onboarding == "" && env.preference.Some? && env.preference.value != ""
            ==> var h := HandleNavigation(d.(onboarding := env.preference.value), m, env);
                r == Step(h.next, [ReadOnboardingPreference] + h.effects)
    ensures d.onboarding == "" && (env.preference.None? || env.preference.value == "")
            ==> r == Step(d, [ReadOnboardingPreference])
    ensures d.onboarding != "" ==> r == HandleNavigation(d, m, env)
    ensures d.onboarding != "" ==> r.next.onboarding == d.onboarding
    ensures r.next.onboarding == "" ==> r.next == d && r.effects == [ReadOnboardingPreference]
    ensures !d.ready ==> r.next.ready == d.ready && forall e :: e in r.effects ==> e == ReadOnboardingPreference
    ensures |Outcomes(r.effects)| <= 1
  {
    if d.onboarding == "" then
      match env.preference
      case None => Step(d, [ReadOnboardingPreference])
      case Some(v) =>
        if v == "" then Step(d, [ReadOnboardingPreference])
        else
          var h := HandleNavigation(d.(onboarding := v), m, env);
          OutcomesAppend([ReadOnboardingPreference], h.effects);
          Step(h.next, [ReadOnboardingPreference] + h.effects)
    else
      HandleNavigation(d, m, env)
  }

  /** `onAction(payload)`, for a payload whose `url` is `url` (None when absent).
      Without a truthy url or without a match nothing happens at all; a match
      goes to the onboarding check. The returned `of(undefined)` carries nothing. */
  function OnAction(d: Delegate, url: Option<string>, env: Env): (r: Step)
    ensures url.None? ==> r == Step(d, [])
    ensures url.Some? && Classify(url.value).None? ==> r == Step(d, [])
    ensures url.Some? && Classify(url.value).Some?
            ==> r == CheckOnboarding(d, Classify(url.value).value, env)
    ensures |Outcomes(r.effects)| <= 1
  {
    if url.Some? && url.value != "" then
      match Classify(url.value)
      case Some(m) => CheckOnboarding(d, m, env)
      case None => Step(d, [])
    else
      Step(d, [])
  }

  /** The `isDelegateReady` setter: record the flag; when set to true with a
      saved match, run the saved match through the onboarding check and then
      empty the slot. */
  function SetReady(d: Delegate, val: bool, env: Env): (r: Step)
    ensures r.next.ready == val
    ensures !val || d.saved.None? ==> r == Step(d.(ready := val), [])
    ensures val && Inv(d) && d.saved.Some?
            ==> r.next == d.(ready := true, saved := None)
                && r.effects == Dispatch(GroupsOf(d.saved.value), env)
    ensures r.next.saved.None? || r.next.saved == d.saved
    ensures |Outcomes(r.effects)| <= 1
  {
    var d1 := d.(ready := val);
    if val && d.saved.Some? then
      var c := CheckOnboarding(d1, d.saved.value, env);
      Step(c.next.(saved := None), c.effects)
    else
      Step(d1, [])
  }

  /** Something that happens to the delegate: a deeplink payload arrives, or
      the host assigns `isDelegateReady`. `env` is what the collaborators
      answer while it is handled. */
  datatype Event = Action(url: Option<string>, env: Env) | SetReadyTo(val: bool, env: Env)

  function Apply(d: Delegate, e: Event): Step {
    match e
    case Action(url, env) => OnAction(d, url, env)
    case SetReadyTo(val, env) => SetReady(d, val, env)
  }

  /** The events handled one after another; effects are concatenated. */
  function Run(d: Delegate, evs: seq<Event>): (r: Step)
    decreases |evs|
  {
    if evs == [] then Step(d, [])
    else
      var s := Apply(d, evs[0]);
      var t := Run(s.next, evs[1..]);
      Step(t.next, s.effects + t.effects)
  }

  /** A freshly constructed delegate satisfies the invariant. */
  lemma InitialInv()
    ensures Inv(Initial) && !Initial.ready && Initial.onboarding == "" && Initial.saved.None?
  {
  }

  /** Every event keeps the invariant. */
  lemma ApplyPreservesInv(d: Delegate, e: Event)
    requires Inv(d)
    ensures Inv(Apply(d, e).next)
  {
    match e
    case Action(url, env) =>
      if url.Some? && Classify(url.value).Some? {
        var m := Classify(url.value).value;
        assert |m.value| > 0;
      }
    case SetReadyTo(val, env) =>
  }

  lemma {:induction false} RunPreservesInv(d: Delegate, evs: seq<Event>)
    requires Inv(d)
    ensures Inv(Run(d, evs).next)
    decreases |evs|
  {
    if evs != [] {
      ApplyPreservesInv(d, evs[0]);
      RunPreservesInv(Apply(d, evs[0]).next, evs[1..]);
    }
  }

  /** Every event keeps a non-empty cached onboarding value and never reads the
      preference again. */
  lemma ApplyKeepsCache(d: Delegate, e: Event)
    requires d.onboarding != ""
    ensures Apply(d, e).next.onboarding == d.onboarding
    ensures ReadOnboardingPreference !in Apply(d, e).effects
  {
  }

  /** Once the onboarding value is cached non-empty, the preference store is
      never read again, whatever events follow. */
  lemma {:induction false} CachedOnboardingNeverReread(d: Delegate, evs: seq<Event>)
    requires d.onboarding != ""
    ensures Run(d, evs).next.onboarding == d.onboarding
    ensures ReadOnboardingPreference !in Run(d, evs).effects
    decreases |evs|
  {
    if evs != [] {
      ApplyKeepsCache(d, evs[0]);
      var s := Apply(d, evs[0]);
      CachedOnboardingNeverReread(s.next, evs[1..]);
    }
  }

  /** While the delegate is not ready, an event that does not set it ready
      produces at most preference reads: no fetch, no navigation, no toast. */
  lemma ApplyWhileNotReady(d: Delegate, e: Event)
    requires !d.ready && !(e.SetReadyTo? && e.val)
    ensures !Apply(d, e).next.ready
    ensures forall x :: x in Apply(d, e).effects ==> x == ReadOnboardingPreference
  {
  }

  /** Links arriving before the delegate is ready are deferred: until it is set
      ready, nothing but preference reads happens. */
  lemma {:induction false} DeferredUntilReady(d: Delegate, evs: seq<Event>)
    requires !d.ready
    requires forall i :: 0 <= i < |evs| ==> !(evs[i].SetReadyTo? && evs[i].val)
    ensures !Run(d, evs).next.ready
    ensures forall x :: x in Run(d, evs).effects ==> x == ReadOnboardingPreference
    decreases |evs|
  {
    if evs != [] {
      ApplyWhileNotReady(d, evs[0]);
      var s := Apply(d, evs[0]);
      DeferredUntilReady(s.next, evs[1..]);
    }
  }

  /** A run of one event is that event's step. */
  lemma RunOne(d: Delegate, e: Event, s: Step)
    requires Apply(d, e) == s
    ensures Run(d, [e]) == s
  {
    assert [e][1..] == [];
    assert s.effects + [] == s.effects;
  }

  /** A run that starts with `e` continues from the state `e` leaves. */
  lemma RunCons(d: Delegate, e: Event, rest: seq<Event>, s: Step, t: Step)
    requires Apply(d, e) == s && Run(s.next, rest) == t
    ensures Run(d, [e] + rest) == Step(t.next, s.effects + t.effects)
  {
    assert ([e] + rest)[0] == e && ([e] + rest)[1..] == rest;
  }

  /** A run of two events is their steps chained. */
  lemma RunTwo(d: Delegate, e1: Event, e2: Event, s1: Step, s2: Step)
    requires Apply(d, e1) == s1 && Apply(s1.next, e2) == s2
    ensures Run(d, [e1, e2]) == Step(s2.next, s1.effects + s2.effects)
  {
    RunOne(s1.next, e2, s2);
    RunCons(d, e1, [e2], s1, s2);
    assert [e1] + [e2] == [e1, e2];
  }

  /** A matched link arriving after onboarding is known but before the
      delegate is ready replaces the pending match and does nothing else. */
  lemma ParkReplacesSlot(d: Delegate, u: string, env: Env)
    requires !d.ready && d.onboarding != ""
    requires Classify(u).Some?
    ensures Apply(d, Action(Some(u), env)) == Step(d.(saved := Some(Classify(u).value)), [])
  {
  }

  /** Parking is silent: a run that starts with a matched link arriving while
      not ready (onboarding known) continues from the state with that match in
      the slot, with nothing emitted for the link. */
  lemma ParkThenRun(d: Delegate, u: string, env: Env, evs: seq<Event>)
    requires !d.ready && d.onboarding != ""
    requires Classify(u).Some? && |evs| > 0 && evs[0] == Action(Some(u), env)
    ensures Run(d, evs) == Run(d.(saved := Some(Classify(u).value)), evs[1..])
  {
    ParkReplacesSlot(d, u, env);
    var t := Run(d.(saved := Some(Classify(u).value)), evs[1..]);
    assert [] + t.effects == t.effects;
  }

  /** Two parked links in a row leave only the second in the slot. */
  lemma ParkTwice(d: Delegate, u1: string, u2: string, env1: Env, env2: Env, e: Event)
    requires !d.ready && d.onboarding != ""
    requires Classify(u1).Some? && Classify(u2).Some?
    ensures Run(d, [Action(Some(u1), env1), Action(Some(u2), env2), e])
            == Run(d.(saved := Some(Classify(u2).value)), [e])
  {
    var evs := [Action(Some(u1), env1), Action(Some(u2), env2), e];
    ParkThenRun(d, u1, env1, evs);
    assert evs[1..] == [Action(Some(u2), env2), e];
    ParkThenRun(d.(saved := Some(Classify(u1).value)), u2, env2, evs[1..]);
    assert evs[1..][1..] == [e];
  }

  /** Setting ready with a parked match dispatches it and empties the slot. */
  lemma ReadyRunsSaved(d: Delegate, m: UrlMatch, env: Env)
    requires !d.ready && d.onboarding != "" && |m.value| > 0
    ensures Run(d.(saved := Some(m)), [SetReadyTo(true, env)])
            == Step(d.(ready := true, saved := None), Dispatch(GroupsOf(m), env))
  {
    var d1 := d.(saved := Some(m));
    assert Inv(d1);
    RunOne(d1, SetReadyTo(true, env), SetReady(d1, true, env));
  }

  /** Two links before readiness: only the second is dispatched when the
      delegate becomes ready, and the slot is left empty. */
  lemma LastWriteWins(d: Delegate, u1: string, u2: string, env1: Env, env2: Env, env3: Env)
    requires !d.ready && d.onboarding != ""
    requires Classify(u1).Some? && Classify(u2).Some?
    ensures Run(d, [Action(Some(u1), env1), Action(Some(u2), env2), SetReadyTo(true, env3)])
            == Step(d.(ready := true, saved := None), Dispatch(GroupsOf(Classify(u2).value), env3))
  {
    ParkTwice(d, u1, u2, env1, env2, SetReadyTo(true, env3));
    ReadyRunsSaved(d, Classify(u2).value, env3);
  }

  /** The first matched link on a delegate that is not ready: the preference
      is read once, cached, and the match is parked. */
  lemma FirstLinkParked(d: Delegate, u: string, env: Env)
    requires !d.ready && d.onboarding == ""
    requires Classify(u).Some? && env.preference.Some? && env.preference.value != ""
    ensures Apply(d, Action(Some(u), env))
            == Step(d.(onboarding := env.preference.value, saved := Some(Classify(u).value)), [ReadOnboardingPreference])
  {
    var m := Classify(u).value;
    var d1 := d.(onboarding := env.preference.value);
    assert HandleNavigation(d1, m, env) == Step(d1.(saved := Some(m)), []);
    assert CheckOnboarding(d, m, env) == Step(d1.(saved := Some(m)), [ReadOnboardingPreference] + []);
  }

  /** On a fresh delegate a dial link triggers the onboarding read and, the
      delegate not being ready, is parked. */
  lemma FreshDialLinkParked(code: string, env: Env)
    requires |code| > 0 && forall n :: 0 <= n < |code| ==> IsWordChar(code[n])
    requires env.preference == Some("true")
    ensures Apply(Initial, Action(Some("/dial/" + code), env))
            == Step(Delegate(false, "true", Some(UrlMatch(0, Dial, "/dial/", code))), [ReadOnboardingPreference])
  {
    ClassifyShape(Dial, 0, code, []);
    assert "/dial/" + code == Prefixes(Dial)[0] + code + [];
    FirstLinkParked(Initial, "/dial/" + code, env);
  }

  /** Setting ready with a parked dial match opens search with its code and
      empties the slot. */
  lemma ParkedDialOpensSearch(d: Delegate, m: UrlMatch, env: Env)
    requires Inv(d) && d.saved == Some(m) && m.kind == Dial
    ensures Apply(d, SetReadyTo(true, env))
            == Step(d.(ready := true, saved := None), [Navigate(Search, DialSearch(m.value, Home))])
  {
    DispatchByKind(m, env);
  }

  /** From a fresh delegate, a matched link that arrives before the tabs are
      loaded is dispatched, after the single onboarding read, exactly when the
      delegate is set ready; the slot is left empty. */
  lemma LinkBeforeReady(u: string, m: UrlMatch, v: string, env1: Env, env2: Env)
    requires Classify(u) == Some(m) && env1.preference == Some(v) && v != ""
    ensures Run(Initial, [Action(Some(u), env1), SetReadyTo(true, env2)])
            == Step(Delegate(true, v, None), [ReadOnboardingPreference] + Dispatch(GroupsOf(m), env2))
  {
    var s1 := Step(Delegate(false, v, Some(m)), [ReadOnboardingPreference]);
    var s2 := Step(Delegate(true, v, None), Dispatch(GroupsOf(m), env2));
    FirstLinkParked(Initial, u, env1);
    assert Inv(s1.next);
    assert Apply(s1.next, SetReadyTo(true, env2)) == s2;
    RunTwo(Initial, Action(Some(u), env1), SetReadyTo(true, env2), s1, s2);
  }

  /** A link that classifies as a dial match, through either prefix and at any
      position, arriving before readiness on a fresh delegate, ends on the
      search page with its code. */
  lemma DialMatchBeforeReady(u: string, m: UrlMatch, v: string, env1: Env, env2: Env)
    requires Classify(u) == Some(m) && m.kind == Dial
    requires env1.preference == Some(v) && v != ""
    ensures Run(Initial, [Action(Some(u), env1), SetReadyTo(true, env2)])
            == Step(Delegate(true, v, None),
                    [ReadOnboardingPreference, Navigate(Search, DialSearch(m.value, Home))])
  {
    var nav := Navigate(Search, DialSearch(m.value, Home));
    assert Run(Initial, [Action(Some(u), env1), SetReadyTo(true, env2)])
           == Step(Delegate(true, v, None), [ReadOnboardingPreference] + [nav]) by {
      LinkBeforeReady(u, m, v, env1, env2);
      DispatchByKind(m, env2);
    }
    assert [ReadOnboardingPreference] + [nav] == [ReadOnboardingPreference, nav];
  }

  /** End to end from a fresh delegate: a dial link that arrives before the
      tabs are loaded is parked after the onboarding read, and setting the
      delegate ready opens search with that dial code. */
  lemma DialLinkBeforeReady(code: string, env1: Env, env2: Env)
    requires |code| > 0 && forall n :: 0 <= n < |code| ==> IsWordChar(code[n])
    requires env1.preference == Some("true")
    ensures Run(Initial, [Action(Some("/dial/" + code), env1), SetReadyTo(true, env2)])
            == Step(Delegate(true, "true", None),
                    [ReadOnboardingPreference, Navigate(Search, DialSearch(code, Home))])
  {
    ClassifyShape(Dial, 0, code, []);
    assert "/dial/" + code == Prefixes(Dial)[0] + code + [];
    DialMatchBeforeReady("/dial/" + code, UrlMatch(0, Dial, "/dial/", code), "true", env1, env2);
  }

  /** The same for a full deeplink with scheme and host, as the app receives it. */
  lemma HostDialLinkBeforeReady(code: string, env1: Env, env2: Env)
    requires |code| > 0 && forall n :: 0 <= n < |code| ==> IsWordChar(code[n])
    requires env1.preference == Some("true")
    ensures Run(Initial, [Action(Some("https://sunbird.org" + "/dial/" + code), env1), SetReadyTo(true, env2)])
            == Step(Delegate(true, "true", None),
                    [ReadOnboardingPreference, Navigate(Search, DialSearch(code, Home))])
  {
    HostDialLinkClassifies(code);
    DialMatchBeforeReady("https://sunbird.org" + "/dial/" + code, UrlMatch(19, Dial, "/dial/", code), "true", env1, env2);
  }

  /** A matched link on a ready delegate whose onboarding value is cached is
      dispatched at once and leaves the state as it was. */
  lemma ReadyLinkDispatched(d: Delegate, u: string, m: UrlMatch, env: Env)
    requires d.ready && d.onboarding != "" && Classify(u) == Some(m)
    ensures Apply(d, Action(Some(u), env)) == Step(d, Dispatch(GroupsOf(m), env))
  {
    assert HandleNavigation(d, m, env) == Step(d, Dispatch(GroupsOf(m), env));
  }

  /** A link that classifies as anything but a dial match (a quiz, content,
      collection or course link, at any position), on a ready delegate, when
      the fetch of its id answers with a course record: the only outcome is the
      enrolled-course page for that record. */
  lemma ContentMatchOpensCourse(d: Delegate, u: string, m: UrlMatch, env: Env)
    requires d.ready && d.onboarding != ""
    requires Classify(u) == Some(m) && m.kind != Dial
    requires m.value in env.contents && env.contents[m.value].contentType == CourseContentType
    ensures Apply(d, Action(Some(u), env)).next == d
    ensures Outcomes(Apply(d, Action(Some(u), env)).effects)
            == [Navigate(EnrolledCourseDetails, ContentState(env.contents[m.value]))]
  {
    var r := NavigateContent(m.value, true, env);
    assert Apply(d, Action(Some(u), env)) == Step(d, r) by {
      ReadyLinkDispatched(d, u, m, env);
      DispatchByKind(m, env);
    }
    FetchedCourseOpens(m.value, env);
  }

  /** End to end for a content link: a ready delegate with the onboarding value
      cached receives `/play/content/<id>`, the fetch returns a record whose
      content type is the lower-cased course constant, and the one thing the
      user sees is the enrolled-course page with that record as state. */
  lemma ContentLinkOpensCourse(d: Delegate, id: string, env: Env)
    requires d.ready && d.onboarding != ""
    requires |id| > 0 && forall n :: 0 <= n < |id| ==> IsWordChar(id[n])
    requires id in env.contents && env.contents[id].contentType == CourseContentType
    ensures Run(d, [Action(Some("/play/content/" + id), env)]).next == d
    ensures Outcomes(Run(d, [Action(Some("/play/content/" + id), env)]).effects)
            == [Navigate(EnrolledCourseDetails, ContentState(env.contents[id]))]
  {
    var u := "/play/content/" + id;
    ClassifyShape(Kind.Content, 0, id, []);
    assert u == Prefixes(Kind.Content)[0] + id + [];
    ContentMatchOpensCourse(d, u, UrlMatch(0, Kind.Content, "/play/content/", id), env);
    RunOne(d, Action(Some(u), env), Apply(d, Action(Some(u), env)));
  }

  /** A read followed by effects that hold no read has the read only first. */
  lemma ReadFirstOnly(a: seq<Effect>, b: seq<Effect>)
    requires ReadOnboardingPreference !in a && ReadOnboardingPreference !in b
    ensures ([ReadOnboardingPreference] + a + b)[0] == ReadOnboardingPreference
    ensures ReadOnboardingPreference !in ([ReadOnboardingPreference] + a + b)[1..]
  {
    assert ([ReadOnboardingPreference] + a + b)[1..] == a + b;
  }

  /** The warm-app case: the first matched link of a session on a delegate that
      is already ready reads the preference, caches the non-empty answer and is
      dispatched at once. */
  lemma FirstLinkOnReady(u: string, m: UrlMatch, v: string, env: Env)
    requires Classify(u) == Some(m) && env.preference == Some(v) && v != ""
    ensures Apply(Initial.(ready := true), Action(Some(u), env))
            == Step(Initial.(ready := true, onboarding := v),
                    [ReadOnboardingPreference] + Dispatch(GroupsOf(m), env))
  {
    var d := Initial.(ready := true);
    assert HandleNavigation(d.(onboarding := v), m, env)
           == Step(d.(onboarding := v), Dispatch(GroupsOf(m), env));
  }

  /** After that first successful read, the preference is never read again:
      over any events that follow, the read is the first effect and the only one. */
  lemma ReadOnceThenNever(u: string, m: UrlMatch, v: string, env: Env, evs: seq<Event>)
    requires Classify(u) == Some(m) && env.preference == Some(v) && v != ""
    ensures Run(Initial.(ready := true), [Action(Some(u), env)] + evs).next.onboarding == v
    ensures Run(Initial.(ready := true), [Action(Some(u), env)] + evs).effects[0] == ReadOnboardingPreference
    ensures ReadOnboardingPreference !in Run(Initial.(ready := true), [Action(Some(u), env)] + evs).effects[1..]
  {
    var d := Initial.(ready := true);
    var a := Action(Some(u), env);
    var x := Dispatch(GroupsOf(m), env);
    var s := Step(d.(onboarding := v), [ReadOnboardingPreference] + x);
    var t := Run(s.next, evs);
    assert Run(d, [a] + evs) == Step(t.next, s.effects + t.effects) by {
      FirstLinkOnReady(u, m, v, env);
      RunCons(d, a, evs, s, t);
    }
    assert t.next.onboarding == v && ReadOnboardingPreference !in t.effects by {
      CachedOnboardingNeverReread(s.next, evs);
    }
    ReadFirstOnly(x, t.effects);
  }

  /** A matched link whose onboarding read is rejected or empty leaves the
      delegate as it was, after the read. */
  lemma RejectedReadIgnored(d: Delegate, u: string, env: Env)
    requires d.onboarding == "" && Classify(u).Some?
    requires env.preference.None? || env.preference.value == ""
    ensures Apply(d, Action(Some(u), env)) == Step(d, [ReadOnboardingPreference])
  {
    assert Apply(d, Action(Some(u), env)) == CheckOnboarding(d, Classify(u).value, env);
  }

  /** A link whose read is rejected or empty is as if it never came, apart from
      the read: whatever events follow run from the same state. */
  lemma RejectedReadThenRun(d: Delegate, u: string, env: Env, evs: seq<Event>)
    requires d.onboarding == "" && Classify(u).Some?
    requires env.preference.None? || env.preference.value == ""
    ensures Run(d, [Action(Some(u), env)] + evs)
            == Step(Run(d, evs).next, [ReadOnboardingPreference] + Run(d, evs).effects)
  {
    RejectedReadIgnored(d, u, env);
    RunCons(d, Action(Some(u), env), evs, Step(d, [ReadOnboardingPreference]), Run(d, evs));
  }

  /** A rejected read followed by one event: the run is that event's step
      from the unchanged state, after the read. */
  lemma RejectedReadThenStep(d: Delegate, u: string, env: Env, e: Event, t: Step)
    requires d.onboarding == "" && Classify(u).Some?
    requires env.preference.None? || env.preference.value == ""
    requires Apply(d, e) == t
    ensures Run(d, [Action(Some(u), env)] + [e]) == Step(t.next, [ReadOnboardingPreference] + t.effects)
  {
    RunOne(d, e, t);
    RejectedReadThenRun(d, u, env, [e]);
  }

  /** A rejected or empty read drops the link: on a fresh delegate it is not
      parked, so setting the delegate ready afterwards dispatches nothing. */
  lemma RejectedReadDropsLink(u: string, env1: Env, env2: Env)
    requires Classify(u).Some? && (env1.preference.None? || env1.preference.value == "")
    ensures Run(Initial, [Action(Some(u), env1)] + [SetReadyTo(true, env2)])
            == Step(Initial.(ready := true), [ReadOnboardingPreference])
  {
    var t := Step(Initial.(ready := true), []);
    assert Run(Initial, [Action(Some(u), env1)] + [SetReadyTo(true, env2)])
           == Step(t.next, [ReadOnboardingPreference] + t.effects) by {
      RejectedReadThenStep(Initial, u, env1, SetReadyTo(true, env2), t);
    }
    assert [ReadOnboardingPreference] + [] == [ReadOnboardingPreference];
  }

  /** Two reads in front of `x`, however the concatenation is grouped. */
  lemma TwoReads(x: seq<Effect>)
    ensures [ReadOnboardingPreference] + ([ReadOnboardingPreference] + x)
            == [ReadOnboardingPreference, ReadOnboardingPreference] + x
  {
    assert [ReadOnboardingPreference] + [ReadOnboardingPreference] == [ReadOnboardingPreference, ReadOnboardingPreference];
  }

  /** While the read keeps answering empty, every link reads the preference
      again: a rejected first read on a ready delegate, then a link whose read
      succeeds, reads twice and dispatches only the second link. */
  lemma RereadAfterRejectedRead(u1: string, u2: string, m2: UrlMatch, v: string, env1: Env, env2: Env)
    requires Classify(u1).Some? && (env1.preference.None? || env1.preference.value == "")
    requires Classify(u2) == Some(m2) && env2.preference == Some(v) && v != ""
    ensures Run(Initial.(ready := true), [Action(Some(u1), env1)] + [Action(Some(u2), env2)])
            == Step(Initial.(ready := true, onboarding := v),
                    [ReadOnboardingPreference, ReadOnboardingPreference] + Dispatch(GroupsOf(m2), env2))
  {
    var d := Initial.(ready := true);
    var x := Dispatch(GroupsOf(m2), env2);
    var t := Step(d.(onboarding := v), [ReadOnboardingPreference] + x);
    assert Run(d, [Action(Some(u1), env1)] + [Action(Some(u2), env2)])
           == Step(t.next, [ReadOnboardingPreference] + t.effects) by {
      FirstLinkOnReady(u2, m2, v, env2);
      RejectedReadThenStep(d, u1, env1, Action(Some(u2), env2), t);
    }
    TwoReads(x);
  }
}

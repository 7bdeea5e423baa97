/** The navigation decision tree of the deeplink delegate: `handleNavigation`'s
    ready branch, `navigateContent` and `navigateQuizContent`. Collaborators
    (router, content service, event bus, telemetry, toast, global app state) are
    not called; each call becomes an `Effect`, and the answers they would give
    are read from an `Env`. */
module Navigation {
  import opened Wrappers
  import opened Text
  import opened UrlClassifier

  /** Router links used by the delegate. */
  datatype Route = Search | EnrolledCourseDetails | CollectionDetailEtb | ContentDetails

  /** The path text of each router link. */
  function Link(r: Route): string {
    match r
    case Search => "search"
    case EnrolledCourseDetails => "enrolled-course-details"
    case CollectionDetailEtb => "collection-detail-etb"
    case ContentDetails => "content-details"
  }

  /** `ContentType.COURSE`, compared after `toLowerCase()`. */
  const ContentTypeCourse: string := "Course"
  /** `MimeType.COLLECTION`. */
  const MimeTypeCollection: string := "application/vnd.ekstep.content-collection"
  /** `ContentFilterConfig.CONTENT_STATUS_UNLISTED`. */
  const StatusUnlisted: string := "Unlisted"
  /** The toast shown when generic content needs the network. */
  const NeedInternetKey: string := "NEED_INTERNET_FOR_DEEPLINK_CONTENT"

  /** Telemetry page ids used as navigation state. */
  datatype PageId = Home

  /** Event-bus topics. */
  datatype Topic = DeeplinkContentPageOpen

  datatype ContentData = ContentData(status: string)

  /** The fields of a fetched content record that the delegate reads. */
  datatype Content = Content(contentType: string, mimeType: string, contentData: Option<ContentData>)

  /** The `state` passed with a navigation, or the payload of a published event. */
  datatype NavState =
    | DialSearch(dialCode: string, source: PageId)   // { dialCode, source }
    | ContentState(content: Content)                 // { content }
    | AutoPlayState(content: Content)                // { content, autoPlayQuizContent: true }

  /** One call the delegate makes on a collaborator, in the order made. */
  datatype Effect =
    | ReadOnboardingPreference                 // preferences.getString(IS_ONBOARDING_COMPLETED)
    | ResetSavedQuizContent                    // appGlobalServices.resetSavedQuizContent()
    | FetchContentDetails(contentId: string)   // contentService.getContentDetails
    | AppLaunchTelemetry                       // app-launch telemetry, launch type DEEPLINK
    | Navigate(route: Route, state: NavState)  // router.navigate
    | ShowToast(messageKey: string)            // commonUtilService.showToast
    | SetLimitedShareQuizContent(id: string)   // appGlobalServices.limitedShareQuizContent = id
    | QuizDeeplinkTelemetry                    // quiz-deeplink interact telemetry
    | Publish(topic: Topic, payload: NavState) // events.publish

  /** What the collaborators answer during one step. */
  datatype Env = Env(
    preference: Option<string>,       // the onboarding preference read; None when the read rejects
    contents: map<string, Content>,   // getContentDetails resolves for these ids and rejects for others
    networkAvailable: bool,
    signInOnboardingCompleted: bool,  // appGlobalServices.isSignInOnboardingCompleted
    userLoggedIn: bool,               // appGlobalServices.isUserLoggedIn()
    routerUrl: string)                // router.url

  /** Effects the user sees as the result of a resolution. */
  predicate IsOutcome(e: Effect) {
    e.Navigate? || e.Publish? || e.ShowToast?
  }

  /** Effects that may follow a resolved fetch. */
  predicate AfterFetchEffect(e: Effect) {
    e == AppLaunchTelemetry || e.SetLimitedShareQuizContent? || e == QuizDeeplinkTelemetry || IsOutcome(e)
  }

  /** The outcome effects of `effs`, in order. */
  function Outcomes(effs: seq<Effect>): (r: seq<Effect>)
    ensures |r| <= |effs|
    ensures forall e :: e in r <==> e in effs && IsOutcome(e)
  {
    if effs == [] then []
    else (if IsOutcome(effs[0]) then [effs[0]] else []) + Outcomes(effs[1..])
  }

  lemma OutcomesOne(e: Effect)
    ensures Outcomes([e]) == if IsOutcome(e) then [e] else []
  {
    assert [e][1..] == [];
  }

  lemma {:induction false} OutcomesAppend(a: seq<Effect>, b: seq<Effect>)
    ensures Outcomes(a + b) == Outcomes(a) + Outcomes(b)
  {
    if a == [] {
      assert a + b == b;
    } else {
      assert (a + b)[1..] == a[1..] + b;
      OutcomesAppend(a[1..], b);
    }
  }

  /** The lower-cased course content type the course branch compares with. */
  const CourseContentType: string := ToLowerAscii(ContentTypeCourse)

  /** The course branch: exact equality with the lower-cased constant. */
  predicate IsCourse(c: Content) {
    c.contentType == CourseContentType
  }

  predicate IsCollection(c: Content) {
    c.mimeType == MimeTypeCollection
  }

  /** The record carries content data and its status is the unlisted constant. */
  predicate IsUnlisted(c: Content) {
    c.contentData.Some? && c.contentData.value.status == StatusUnlisted
  }

  /** Content that falls through the course and collection branches. */
  predicate IsGeneric(c: Content) {
    !IsCourse(c) && !IsCollection(c)
  }

  /** The router URL is non-empty and contains the content-details link somewhere. */
  predicate OnContentDetailsPage(routerUrl: string) {
    routerUrl != "" && IndexOf(routerUrl, Link(ContentDetails)) != -1
  }

  /** A logged-in user who has not finished sign-in onboarding is not taken to quiz content. */
  predicate QuizHeld(env: Env) {
    !env.signInOnboardingCompleted && env.userLoggedIn
  }

  /** What `navigateQuizContent` always does first: set the limited-share
      marker, then quiz-deeplink telemetry when the link came from outside. */
  function QuizPrologue(id: string, isFromLink: bool): (h: seq<Effect>)
    ensures |h| == (if isFromLink then 2 else 1) && h[0] == SetLimitedShareQuizContent(id)
    ensures isFromLink ==> h[1] == QuizDeeplinkTelemetry
    ensures QuizDeeplinkTelemetry in h <==> isFromLink
    ensures Outcomes(h) == []
    ensures forall e :: e in h ==> AfterFetchEffect(e) && e != AppLaunchTelemetry
  {
    var mark := SetLimitedShareQuizContent(id);
    OutcomesOne(mark);
    OutcomesOne(QuizDeeplinkTelemetry);
    OutcomesAppend([mark], [QuizDeeplinkTelemetry]);
    assert [mark] + [QuizDeeplinkTelemetry] == [mark, QuizDeeplinkTelemetry];
    if isFromLink then [mark, QuizDeeplinkTelemetry] else [mark]
  }

  /** Where an unheld quiz link lands: an event for the already open content
      page, otherwise a navigation to it; autoplay in both. */
  function QuizLanding(content: Content, env: Env): (e: Effect)
    ensures IsOutcome(e) && Outcomes([e]) == [e]
    ensures OnContentDetailsPage(env.routerUrl) ==> e == Publish(DeeplinkContentPageOpen, AutoPlayState(content))
    ensures !OnContentDetailsPage(env.routerUrl) ==> e == Navigate(ContentDetails, AutoPlayState(content))
  {
    var e :=
      if OnContentDetailsPage(env.routerUrl) then Publish(DeeplinkContentPageOpen, AutoPlayState(content))
      else Navigate(ContentDetails, AutoPlayState(content));
    OutcomesOne(e);
    e
  }

  /** `navigateQuizContent(identifier, content, isFromLink)`. */
  function NavigateQuizContent(id: string, content: Content, isFromLink: bool, env: Env): (r: seq<Effect>)
    ensures |r| >= 1 && r[0] == SetLimitedShareQuizContent(id)
    ensures QuizDeeplinkTelemetry in r <==> isFromLink
    ensures isFromLink ==> |r| >= 2 && r[1] == QuizDeeplinkTelemetry
    ensures QuizHeld(env) ==> |r| == (if isFromLink then 2 else 1)
    ensures !QuizHeld(env) ==> |r| == (if isFromLink then 3 else 2)
    ensures QuizHeld(env) ==> Outcomes(r) == []
    ensures !QuizHeld(env) && OnContentDetailsPage(env.routerUrl)
            ==> Outcomes(r) == [Publish(DeeplinkContentPageOpen, AutoPlayState(content))]
    ensures !QuizHeld(env) && !OnContentDetailsPage(env.routerUrl)
            ==> Outcomes(r) == [Navigate(ContentDetails, AutoPlayState(content))]
    ensures forall e :: e in r ==> AfterFetchEffect(e) && e != AppLaunchTelemetry
    ensures forall e :: e in Outcomes(r) ==> e.Publish? || e == Navigate(ContentDetails, AutoPlayState(content))
  {
    var head := QuizPrologue(id, isFromLink);
    if QuizHeld(env) then
      head
    else
      var landing := QuizLanding(content, env);
      OutcomesAppend(head, [landing]);
      head + [landing]
  }

  /** The generic-content branch of `navigateContent` (neither course nor
      collection): a toast when offline, the quiz sub-resolver for unlisted
      content, the content-details page otherwise. */
  function ResolveGeneric(id: string, c: Content, isFromLink: bool, env: Env): (r: seq<Effect>)
    ensures Outcomes(r) == [ShowToast(NeedInternetKey)] <==> !env.networkAvailable
    ensures Outcomes(r) == [Navigate(ContentDetails, ContentState(c))] <==> env.networkAvailable && !IsUnlisted(c)
    ensures SetLimitedShareQuizContent(id) in r <==> env.networkAvailable && IsUnlisted(c)
    ensures env.networkAvailable && IsUnlisted(c) ==> r == NavigateQuizContent(id, c, isFromLink, env)
    ensures !(env.networkAvailable && IsUnlisted(c)) ==> |r| == 1
    ensures |Outcomes(r)| <= 1
    ensures forall e :: e in Outcomes(r) ==> e.ShowToast? || e.Publish? || (e.Navigate? && e.route == ContentDetails)
    ensures forall e :: e in r ==> AfterFetchEffect(e) && e != AppLaunchTelemetry
  {
    if !env.networkAvailable then
      OutcomesOne(ShowToast(NeedInternetKey));
      [ShowToast(NeedInternetKey)]
    else if IsUnlisted(c) then
      NavigateQuizContent(id, c, isFromLink, env)
    else
      OutcomesOne(Navigate(ContentDetails, ContentState(c)));
      [Navigate(ContentDetails, ContentState(c))]
  }

  /** The branches of `navigateContent` once the content has been fetched. */
  function ResolveContent(id: string, c: Content, isFromLink: bool, env: Env): (r: seq<Effect>)
    ensures Outcomes(r) == [Navigate(EnrolledCourseDetails, ContentState(c))] <==> IsCourse(c)
    ensures Outcomes(r) == [Navigate(CollectionDetailEtb, ContentState(c))] <==> !IsCourse(c) && IsCollection(c)
    ensures Outcomes(r) == [ShowToast(NeedInternetKey)] <==> IsGeneric(c) && !env.networkAvailable
    ensures Outcomes(r) == [Navigate(ContentDetails, ContentState(c))]
            <==> IsGeneric(c) && env.networkAvailable && !IsUnlisted(c)
    ensures SetLimitedShareQuizContent(id) in r <==> IsGeneric(c) && env.networkAvailable && IsUnlisted(c)
    ensures IsGeneric(c) && env.networkAvailable && IsUnlisted(c) ==> r == NavigateQuizContent(id, c, isFromLink, env)
    ensures !(IsGeneric(c) && env.networkAvailable && IsUnlisted(c)) ==> |r| == 1
    ensures |Outcomes(r)| <= 1
    ensures forall e :: e in r ==> AfterFetchEffect(e) && e != AppLaunchTelemetry
  {
    if IsCourse(c) then
      OutcomesOne(Navigate(EnrolledCourseDetails, ContentState(c)));
      [Navigate(EnrolledCourseDetails, ContentState(c))]
    else if IsCollection(c) then
      OutcomesOne(Navigate(CollectionDetailEtb, ContentState(c)));
      [Navigate(CollectionDetailEtb, ContentState(c))]
    else
      var r := ResolveGeneric(id, c, isFromLink, env);
      assert Outcomes(r) != [Navigate(EnrolledCourseDetails, ContentState(c))]
        by { assert Navigate(EnrolledCourseDetails, ContentState(c)) !in Outcomes(r); }
      assert Outcomes(r) != [Navigate(CollectionDetailEtb, ContentState(c))]
        by { assert Navigate(CollectionDetailEtb, ContentState(c)) !in Outcomes(r); }
      r
  }

  /** What `navigateContent` does after the fetch resolved with `c`: launch
      telemetry when the content came from a link, before any branch. */
  function AfterFetch(id: string, c: Content, isFromLink: bool, env: Env): (r: seq<Effect>)
    ensures isFromLink ==> |r| >= 1 && r[0] == AppLaunchTelemetry
    ensures AppLaunchTelemetry in r <==> isFromLink
    ensures r[(if isFromLink then 1 else 0)..] == ResolveContent(id, c, isFromLink, env)
    ensures Outcomes(r) == Outcomes(ResolveContent(id, c, isFromLink, env))
    ensures forall e :: e in r ==> AfterFetchEffect(e)
  {
    var launch := if isFromLink then [AppLaunchTelemetry] else [];
    var rest := ResolveContent(id, c, isFromLink, env);
    OutcomesAppend(launch, rest);
    assert Outcomes(launch) == [];
    assert AppLaunchTelemetry !in rest;
    assert forall e :: e in launch + rest ==> e in launch || e in rest;
    assert (launch + rest)[|launch|..] == rest;
    launch + rest
  }

  /** Dropping a prefix and then `k` more elements leaves the tail's suffix from `k`. */
  lemma SuffixPastPrefix(p: seq<Effect>, t: seq<Effect>, k: nat)
    requires k <= |t|
    ensures (p + t)[|p| + k..] == t[k..]
  {
  }

  /** The reset and the fetch, followed by effects that may follow a fetch. */
  lemma FetchPrefix(id: string, tail: seq<Effect>)
    requires forall e :: e in tail ==> AfterFetchEffect(e)
    ensures var r := [ResetSavedQuizContent, FetchContentDetails(id)] + tail;
      && r[2..] == tail
      && Outcomes(r) == Outcomes(tail)
      && (AppLaunchTelemetry in r <==> AppLaunchTelemetry in tail)
      && ReadOnboardingPreference !in r
  {
    var prefix := [ResetSavedQuizContent, FetchContentDetails(id)];
    OutcomesOne(ResetSavedQuizContent);
    OutcomesOne(FetchContentDetails(id));
    OutcomesAppend([ResetSavedQuizContent], [FetchContentDetails(id)]);
    assert [ResetSavedQuizContent] + [FetchContentDetails(id)] == prefix;
    OutcomesAppend(prefix, tail);
    assert (prefix + tail)[2..] == tail;
    assert !AfterFetchEffect(ReadOnboardingPreference);
  }

  /** `navigateContent(identifier, isFromLink)`: reset the quiz marker, fetch,
      then (if the fetch resolved) launch telemetry and the branches. A rejected
      fetch is caught and ends the resolution. */
  function NavigateContent(id: string, isFromLink: bool, env: Env): (r: seq<Effect>)
    ensures |r| >= 2 && r[0] == ResetSavedQuizContent && r[1] == FetchContentDetails(id)
    ensures id !in env.contents ==> r == [ResetSavedQuizContent, FetchContentDetails(id)]
    ensures id in env.contents && isFromLink ==> |r| >= 3 && r[2] == AppLaunchTelemetry
    ensures AppLaunchTelemetry in r <==> id in env.contents && isFromLink
    ensures id in env.contents ==> r[2..] == AfterFetch(id, env.contents[id], isFromLink, env)
    ensures id in env.contents
            ==> r[(if isFromLink then 3 else 2)..] == ResolveContent(id, env.contents[id], isFromLink, env)
    ensures id in env.contents ==> Outcomes(r) == Outcomes(ResolveContent(id, env.contents[id], isFromLink, env))
    ensures forall e :: e in r[2..] ==> AfterFetchEffect(e)
    ensures |Outcomes(r)| <= 1
    ensures ReadOnboardingPreference !in r
  {
    var prefix := [ResetSavedQuizContent, FetchContentDetails(id)];
    FetchPrefix(id, []);
    assert prefix + [] == prefix;
    if id in env.contents then
      var tail := AfterFetch(id, env.contents[id], isFromLink, env);
      FetchPrefix(id, tail);
      SuffixPastPrefix(prefix, tail, if isFromLink then 1 else 0);
      prefix + tail
    else
      prefix
  }

  /** JavaScript truthiness of an optional string: defined and non-empty. */
  predicate Truthy(o: Option<string>) {
    o.Some? && o.value != ""
  }

  /** JavaScript `a || b` on optional strings. */
  function Or(a: Option<string>, b: Option<string>): Option<string> {
    if Truthy(a) then a else b
  }

  /** `handleNavigation` once the delegate is ready: a dial code goes to search,
      otherwise the first truthy id among quiz, content and course is resolved. */
  function Dispatch(g: Groups, env: Env): (r: seq<Effect>)
    ensures Truthy(g.dialCode) ==> forall e :: e in r ==> !e.FetchContentDetails?
    ensures Truthy(g.dialCode) ==> Outcomes(r) == [Navigate(Search, DialSearch(g.dialCode.value, Home))]
    ensures |Outcomes(r)| <= 1
    ensures ReadOnboardingPreference !in r
  {
    if Truthy(g.dialCode) then
      [Navigate(Search, DialSearch(g.dialCode.value, Home))]
    else
      var id := Or(Or(g.quizId, g.contentId), g.courseId);
      if Truthy(id) then NavigateContent(id.value, true, env) else []
  }

  /** For the groups of a real match, the truthiness chain of `handleNavigation`
      resolves exactly the captured id of the matched alternative. */
  lemma DispatchByKind(m: UrlMatch, env: Env)
    ensures |m.value| > 0 && m.kind == Dial
            ==> Dispatch(GroupsOf(m), env) == [Navigate(Search, DialSearch(m.value, Home))]
    ensures |m.value| > 0 && m.kind != Dial
            ==> Dispatch(GroupsOf(m), env) == NavigateContent(m.value, true, env)
  {
    if |m.value| > 0 {
      var g := GroupsOf(m);
      if m.kind == Dial {
        assert Truthy(g.dialCode);
      } else {
        assert !Truthy(g.dialCode);
        assert Or(Or(g.quizId, g.contentId), g.courseId) == Some(m.value);
      }
    }
  }

  /** When the fetch answers with a course record (its content type is the
      lower-cased course constant), the enrolled-course page
      for that record is the one outcome of resolving the id. */
  lemma FetchedCourseOpens(id: string, env: Env)
    requires id in env.contents && env.contents[id].contentType == CourseContentType
    ensures Outcomes(NavigateContent(id, true, env))
            == [Navigate(EnrolledCourseDetails, ContentState(env.contents[id]))]
  {
    assert IsCourse(env.contents[id]);
  }

  /** The network is consulted only for generic content: course and collection
      links resolve the same with or without it. */
  lemma NetworkOnlyMattersForGenericContent(id: string, c: Content, isFromLink: bool, env: Env, online: bool)
    requires !IsGeneric(c)
    ensures ResolveContent(id, c, isFromLink, env)
            == ResolveContent(id, c, isFromLink, env.(networkAvailable := online))
  {
  }

  /** The course test is case-sensitive: a record whose content type is the
      constant as written, `Course`, is not sent to the course page. */
  lemma CourseCheckIsExact(c: Content)
    requires c.contentType == ContentTypeCourse
    ensures !IsCourse(c)
  {
    assert CourseContentType[0] == 'c';
  }

  /** A course record goes to the enrolled-course page whatever its mime type. */
  lemma CourseBeatsCollection(id: string, c: Content, isFromLink: bool, env: Env)
    requires c.contentType == "course" && c.mimeType == MimeTypeCollection
    ensures Outcomes(ResolveContent(id, c, isFromLink, env)) == [Navigate(EnrolledCourseDetails, ContentState(c))]
  {
    assert CourseContentType == "course";
  }
}

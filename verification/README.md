# Splash-screen deeplink delegate, modelled in Dafny

This project models the deeplink handler that the Sunbird mobile app's splash screen
uses. The handler is the class `SplaschreenDeeplinkActionHandlerDelegate`. It does three things:

- **Classifies** an incoming URL. One regular expression has four alternatives: quiz
  `/resources/play/content/<id>`, dial `/(dial|QR)/<code>`, content
  `/play/(content|collection)/<id>` and course `/(explore-course|learn)/course/<id>`.
- **Gates** a matched link. The first gate is a cached onboarding-completed preference.
  The second gate is a ready flag that the host sets once the tabs are loaded. A link
  that arrives before the delegate is ready goes into a single pending slot. A later
  link overwrites it.
- **Resolves** the link into navigation. A dial code opens search. Every other shape
  fetches the content record and branches on its type, mime type, the network and its
  visibility status. Unlisted content goes through a quiz sub-resolver.

Collaborator calls that act on the outside world are `Effect`s in an ordered list:
router navigation, content fetch, preference read, event publication, toast,
telemetry and global app-state writes. The collaborators' answers come from an `Env`
record: the preference value, the fetch results, network availability, the
sign-in-onboarding and login flags, and the router URL. Pure queries are `Env` reads
and produce no effect: `isUserLoggedIn()`, `networkInfo.isNetworkAvailable`,
`isSignInOnboardingCompleted` and `router.url`. Each operation is a pure step. It
returns the next `Delegate` state and the effects, in order.

Modules:

- `wrappers.dfy`: `Option`.
- `text.dfy`: `\w`, `indexOf` and ASCII `toLowerCase`.
- `classifier.dfy`: the matcher and the `groups` record.
- `navigation.dfy`: the decision tree.
- `delegate.dfy`: the state machine, and `Run` over a sequence of events.

The matcher follows JavaScript `match` semantics. The leftmost start index wins.
At one index the alternatives are tried in order. Each `\w+` is greedy.
`AlternativesExclusive` proves that two alternatives never match at the same index,
because the character after the first `/` tells them apart. So a quiz link beats the
content shape inside it only because it starts further left, and a content link that
starts first beats a later quiz link. The pattern's order of alternatives never decides.

Constant values come from app-constant and telemetry-constant files that are not part
of this model. The model assumes Sunbird's values:

- `ContentType.COURSE` is `"Course"`.
- `MimeType.COLLECTION` is `"application/vnd.ekstep.content-collection"`.
- `CONTENT_STATUS_UNLISTED` is `"Unlisted"`.
- The router links are `search`, `enrolled-course-details`, `collection-detail-etb`
  and `content-details`.

Apart from `CourseCheckIsExact` and `CourseBeatsCollection`, which speak of the
literal strings `"Course"` and `"course"`, the proofs rely only on these constants
being distinct. The course lemmas `FetchedCourseOpens`, `ContentMatchOpensCourse` and
`ContentLinkOpensCourse` are stated with the lower-cased constant itself.

Two consequences of the code are worth stating:

- The course test is exact equality with the lower-cased `ContentType.COURSE`. A
  record whose `contentType` is `"Course"` does not reach the course page
  (`CourseCheckIsExact`).
- The alternatives are not a priority order. Only the start position decides
  (`LeftmostBeatsAlternativeOrder`).

## Model

| member | source | states |
|---|---|---|
| Text.ToLowerAscii | src/services/sunbird-splashscreen/splaschreen-deeplink-action-handler-delegate.ts:91 | ASCII `toLowerCase`: same length, each upper-case letter lowered and every other character kept |
| Text.IndexOfFrom | src/services/sunbird-splashscreen/splaschreen-deeplink-action-handler-delegate.ts:117 | `indexOf` returns -1 exactly when the needle occurs nowhere; otherwise it returns the first index where it occurs |
| Text.IndexOfFindsOccurrence | src/services/sunbird-splashscreen/splaschreen-deeplink-action-handler-delegate.ts:117 | `url.indexOf(CONTENT_DETAILS) !== -1` holds iff the link text occurs somewhere in the router URL |
| UrlClassifier.WordRun | src/services/sunbird-splashscreen/splaschreen-deeplink-action-handler-delegate.ts:43-46 | greedy `\w+` consumes only word characters and stops at the end of the string or at a non-word character |
| UrlClassifier.FirstPrefixAt | src/services/sunbird-splashscreen/splaschreen-deeplink-action-handler-delegate.ts:44-46 | the inner alternation (such as dial or QR) finds a prefix followed by a word character iff one of the listed prefixes has one |
| UrlClassifier.Capture | src/services/sunbird-splashscreen/splaschreen-deeplink-action-handler-delegate.ts:43-46 | a prefix followed by a word character yields a match whose group is the maximal word run after the prefix |
| UrlClassifier.TryAlternatives | src/services/sunbird-splashscreen/splaschreen-deeplink-action-handler-delegate.ts:48-49 | at one index the combined pattern fails iff none of its alternatives can match there; otherwise it returns a match of the first one that can, and no other listed alternative matches there |
| UrlClassifier.FirstMatchFrom | src/services/sunbird-splashscreen/splaschreen-deeplink-action-handler-delegate.ts:50 | scanning start indices left to right returns no match iff no alternative matches at any index; otherwise it returns the leftmost match |
| UrlClassifier.AlternativesExclusive | src/services/sunbird-splashscreen/splaschreen-deeplink-action-handler-delegate.ts:43-49 | no two alternatives can match at the same start index |
| UrlClassifier.Classify | src/services/sunbird-splashscreen/splaschreen-deeplink-action-handler-delegate.ts:48-50 | `url.match` returns None iff no shape occurs anywhere. Otherwise it returns the leftmost match. That match is the only alternative matching at its index, and it captures the maximal `\w+` run |
| UrlClassifier.MaximalWordRunUnique | src/services/sunbird-splashscreen/splaschreen-deeplink-action-handler-delegate.ts:43-46 | the captured group is determined by where it starts |
| UrlClassifier.ClassifyShape | src/services/sunbird-splashscreen/splaschreen-deeplink-action-handler-delegate.ts:43-50 | every `prefix + id` link of each of the four shapes (optionally followed by a non-word character) classifies as that shape and captures exactly `id` |
| UrlClassifier.QuizLinkWinsByPosition | src/services/sunbird-splashscreen/splaschreen-deeplink-action-handler-delegate.ts:48-50 | a quiz link also contains the content shape at index 10, yet it classifies as a quiz |
| UrlClassifier.LeftmostBeatsAlternativeOrder | src/services/sunbird-splashscreen/splaschreen-deeplink-action-handler-delegate.ts:48-50 | when a content shape precedes a quiz shape, the content shape wins |
| UrlClassifier.ClassifyAt | src/services/sunbird-splashscreen/splaschreen-deeplink-action-handler-delegate.ts:48-50 | a match with no match starting anywhere before it is exactly what `url.match` returns: its index, alternative, prefix and group |
| UrlClassifier.ClassifyAfterLead | src/services/sunbird-splashscreen/splaschreen-deeplink-action-handler-delegate.ts:43-50 | a link of one of the four shapes after leading text in which no match starts classifies as that shape at the end of the leading text and captures exactly `id` |
| UrlClassifier.NoMatchInLead | src/services/sunbird-splashscreen/splaschreen-deeplink-action-handler-delegate.ts:43-50 | leading text that does not end in '/', and in which no '/' is followed by the second character of some prefix, starts no match, whatever follows it |
| UrlClassifier.HostDialLinkClassifies | src/services/sunbird-splashscreen/splaschreen-deeplink-action-handler-delegate.ts:43-50 | a full `https://sunbird.org/dial/<code>` link classifies as a dial match at index 19 with exactly that code |
| UrlClassifier.NearMissesDoNotMatch | src/services/sunbird-splashscreen/splaschreen-deeplink-action-handler-delegate.ts:43-50 | a bare prefix without an id is not a match, and `/qr/` (wrong case) is not the dial shape |
| UrlClassifier.GroupsOf | src/services/sunbird-splashscreen/splaschreen-deeplink-action-handler-delegate.ts:52 | on a match exactly one named group is defined: the matched alternative's group, holding the captured text |
| Navigation.QuizPrologue | src/services/sunbird-splashscreen/splaschreen-deeplink-action-handler-delegate.ts:110-113 | the limited-share marker is set first, then quiz telemetry iff `isFromLink`; neither is an outcome |
| Navigation.QuizLanding | src/services/sunbird-splashscreen/splaschreen-deeplink-action-handler-delegate.ts:117-121 | on the content-details page the content is published with autoplay; otherwise it navigates to content details with autoplay; either way it is an outcome |
| Navigation.NavigateQuizContent | src/services/sunbird-splashscreen/splaschreen-deeplink-action-handler-delegate.ts:109-122 | the limited-share marker is set first. Quiz telemetry is emitted iff `isFromLink`, as the second effect. A logged-in user without sign-in onboarding gets only those one or two effects and no outcome. Otherwise exactly one landing effect follows: a publish with autoplay on the content-details page, or navigation to content details with autoplay |
| Navigation.ResolveGeneric | src/services/sunbird-splashscreen/splaschreen-deeplink-action-handler-delegate.ts:95-104 | for content that is neither course nor collection: offline gives the toast; online and Unlisted goes to the quiz resolver; online and listed goes to content details. Outside the quiz branch the toast or the navigation is the only effect. At most one outcome |
| Navigation.ResolveContent | src/services/sunbird-splashscreen/splaschreen-deeplink-action-handler-delegate.ts:91-105 | the branch order, each as an iff on the outcome: course page; collection page; toast when offline (generic content only); quiz sub-resolver for Unlisted; content details otherwise. Every branch but the quiz one emits exactly one effect. At most one outcome |
| Navigation.AfterFetch | src/services/sunbird-splashscreen/splaschreen-deeplink-action-handler-delegate.ts:87-105 | after a resolved fetch, launch telemetry comes first iff the link came from outside, and what follows it is exactly the effects of the branch taken |
| Navigation.NavigateContent | src/services/sunbird-splashscreen/splaschreen-deeplink-action-handler-delegate.ts:80-107 | the quiz marker is reset, then the content is fetched. A rejected fetch ends with nothing more. A resolved fetch is followed by the launch telemetry iff `isFromLink`, and then by exactly the effects of the branch taken on the fetched record, so the outcome is that branch's outcome. Nothing after the fetch fetches, resets or reads again. At most one outcome |
| Navigation.FetchedCourseOpens | src/services/sunbird-splashscreen/splaschreen-deeplink-action-handler-delegate.ts:80-92 | when the fetch answers with a course record (content type equal to the lower-cased course constant), the only outcome is the enrolled-course page with that record as state |
| Navigation.Dispatch | src/services/sunbird-splashscreen/splaschreen-deeplink-action-handler-delegate.ts:69-74 | a truthy dial code navigates to search with `{dialCode, source: HOME}` and never fetches content. At most one outcome |
| Navigation.DispatchByKind | src/services/sunbird-splashscreen/splaschreen-deeplink-action-handler-delegate.ts:70-73 | for the groups of a real match, the JavaScript or-chain opens search for a dial code and otherwise resolves exactly the captured id with `isFromLink = true` |
| Navigation.NetworkOnlyMattersForGenericContent | src/services/sunbird-splashscreen/splaschreen-deeplink-action-handler-delegate.ts:91-99 | course and collection records resolve the same whether or not the network is available |
| Navigation.CourseCheckIsExact | src/services/sunbird-splashscreen/splaschreen-deeplink-action-handler-delegate.ts:91 | the course test is case-sensitive: `contentType` equal to `"Course"` does not select the course page |
| Navigation.CourseBeatsCollection | src/services/sunbird-splashscreen/splaschreen-deeplink-action-handler-delegate.ts:91-94 | a `course` record goes to the enrolled-course page even when its mime type is the collection type |
| DeeplinkDelegate.HandleNavigation | src/services/sunbird-splashscreen/splaschreen-deeplink-action-handler-delegate.ts:68-78 | when not ready, it only stores the match in the slot, replacing the old one, with no effect. When ready, the state is unchanged and it dispatches by kind |
| DeeplinkDelegate.CheckOnboarding | src/services/sunbird-splashscreen/splaschreen-deeplink-action-handler-delegate.ts:59-66 | the preference is read iff the cache is empty, and the read comes first. A missing or empty answer leaves the state as it was: nothing but the read happens and the link is dropped. A non-empty answer is cached and the link goes on to `handleNavigation`, after the read. With a cached value it goes straight to `handleNavigation` and keeps the cache |
| DeeplinkDelegate.OnAction | src/services/sunbird-splashscreen/splaschreen-deeplink-action-handler-delegate.ts:41-57 | a payload without a url, or with a url that matches no shape, changes nothing and causes no effect (no preference read). A match goes to the onboarding check |
| DeeplinkDelegate.SetReady | src/services/sunbird-splashscreen/splaschreen-deeplink-action-handler-delegate.ts:23-29 | the flag is always stored. Setting it false, or true with an empty slot, does nothing else. Setting it true with a saved match dispatches exactly that match once and empties the slot. The slot is otherwise untouched |
| DeeplinkDelegate.InitialInv | src/services/sunbird-splashscreen/splaschreen-deeplink-action-handler-delegate.ts:18-21 | a new delegate is not ready, has an empty onboarding cache and an empty slot |
| DeeplinkDelegate.ApplyPreservesInv | src/services/sunbird-splashscreen/splaschreen-deeplink-action-handler-delegate.ts:23-78 | a saved match always arrived after onboarding passed, while not ready, with a non-empty id; every event keeps this |
| DeeplinkDelegate.RunPreservesInv | src/services/sunbird-splashscreen/splaschreen-deeplink-action-handler-delegate.ts:23-78 | the invariant holds after any sequence of events |
| DeeplinkDelegate.ApplyKeepsCache | src/services/sunbird-splashscreen/splaschreen-deeplink-action-handler-delegate.ts:59-66 | once the onboarding value is cached non-empty, an event neither changes it nor reads the preference |
| DeeplinkDelegate.CachedOnboardingNeverReread | src/services/sunbird-splashscreen/splaschreen-deeplink-action-handler-delegate.ts:59-66 | once cached non-empty, the preference is never read again over any sequence of events |
| DeeplinkDelegate.ApplyWhileNotReady | src/services/sunbird-splashscreen/splaschreen-deeplink-action-handler-delegate.ts:68-78 | while not ready, an event other than setting ready produces nothing but preference reads |
| DeeplinkDelegate.DeferredUntilReady | src/services/sunbird-splashscreen/splaschreen-deeplink-action-handler-delegate.ts:68-78 | until the delegate is set ready, no fetch, navigation, toast or telemetry happens |
| DeeplinkDelegate.ParkReplacesSlot | src/services/sunbird-splashscreen/splaschreen-deeplink-action-handler-delegate.ts:75-77 | a matched link arriving while not ready (onboarding known) replaces the pending match and does nothing else |
| DeeplinkDelegate.ParkThenRun | src/services/sunbird-splashscreen/splaschreen-deeplink-action-handler-delegate.ts:68-78 | a run that starts with a link arriving while not ready continues from the state with that link parked, and the link emits nothing |
| DeeplinkDelegate.ParkTwice | src/services/sunbird-splashscreen/splaschreen-deeplink-action-handler-delegate.ts:75-77 | two links parked in a row leave only the second in the slot |
| DeeplinkDelegate.ReadyRunsSaved | src/services/sunbird-splashscreen/splaschreen-deeplink-action-handler-delegate.ts:23-29 | setting ready with a parked match dispatches it and empties the slot |
| DeeplinkDelegate.LastWriteWins | src/services/sunbird-splashscreen/splaschreen-deeplink-action-handler-delegate.ts:23-78 | of two links arriving before readiness, only the second is dispatched when the delegate becomes ready, and the slot ends empty |
| DeeplinkDelegate.FirstLinkParked | src/services/sunbird-splashscreen/splaschreen-deeplink-action-handler-delegate.ts:41-77 | the first matched link on a delegate that is not ready reads the preference once, caches it and parks the match |
| DeeplinkDelegate.LinkBeforeReady | src/services/sunbird-splashscreen/splaschreen-deeplink-action-handler-delegate.ts:23-77 | from a fresh delegate, a matched link that arrives before readiness produces one preference read and is dispatched exactly when the delegate is set ready; the slot ends empty |
| DeeplinkDelegate.FreshDialLinkParked | src/services/sunbird-splashscreen/splaschreen-deeplink-action-handler-delegate.ts:41-77 | on a fresh delegate a dial link reads the preference once and is parked |
| DeeplinkDelegate.ParkedDialOpensSearch | src/services/sunbird-splashscreen/splaschreen-deeplink-action-handler-delegate.ts:23-71 | for any delegate state meeting the invariant whose slot holds a dial match, through either prefix and at any index, setting ready opens search with its code and empties the slot; nothing else changes |
| DeeplinkDelegate.DialMatchBeforeReady | src/services/sunbird-splashscreen/splaschreen-deeplink-action-handler-delegate.ts:23-71 | from a fresh delegate, any link that classifies as a dial match (`/dial/` or `/QR/`, at any index) and whose read answers non-empty ends, once ready, with one preference read and one navigation to search with its code, the answer cached and the slot empty |
| DeeplinkDelegate.DialLinkBeforeReady | src/services/sunbird-splashscreen/splaschreen-deeplink-action-handler-delegate.ts:23-77 | from a fresh delegate: dial link, then ready, gives exactly one preference read followed by one navigation to search |
| DeeplinkDelegate.HostDialLinkBeforeReady | src/services/sunbird-splashscreen/splaschreen-deeplink-action-handler-delegate.ts:23-77 | the same for a full `https://sunbird.org/dial/<code>` link, as the app receives it |
| DeeplinkDelegate.ReadyLinkDispatched | src/services/sunbird-splashscreen/splaschreen-deeplink-action-handler-delegate.ts:41-74 | a matched link on a ready delegate with the onboarding value cached is dispatched at once and leaves the state unchanged |
| DeeplinkDelegate.ContentMatchOpensCourse | src/services/sunbird-splashscreen/splaschreen-deeplink-action-handler-delegate.ts:41-92 | on a ready delegate with the onboarding value cached, any link classified as something other than a dial match (quiz, content, collection or course, at any index) whose id fetches a course record has the enrolled-course page as its only outcome, and the state is unchanged |
| DeeplinkDelegate.ContentLinkOpensCourse | src/services/sunbird-splashscreen/splaschreen-deeplink-action-handler-delegate.ts:41-92 | end to end: a ready delegate with the onboarding value cached receives `/play/content/<id>`, the fetch returns a course record, and the only outcome is the enrolled-course page for it; the state is unchanged |
| DeeplinkDelegate.FirstLinkOnReady | src/services/sunbird-splashscreen/splaschreen-deeplink-action-handler-delegate.ts:59-73 | on a delegate that is already ready, the first matched link reads the preference, caches the non-empty answer and is dispatched at once |
| DeeplinkDelegate.ReadOnceThenNever | src/services/sunbird-splashscreen/splaschreen-deeplink-action-handler-delegate.ts:59-66 | after that first successful read, over any events that follow, the read is the first effect and never happens again, and the cached value stays |
| DeeplinkDelegate.RejectedReadThenRun | src/services/sunbird-splashscreen/splaschreen-deeplink-action-handler-delegate.ts:59-66 | a link whose read answers missing or empty is as if it never came, apart from the read: any events after it run from the same state |
| DeeplinkDelegate.RejectedReadDropsLink | src/services/sunbird-splashscreen/splaschreen-deeplink-action-handler-delegate.ts:23-66 | on a fresh delegate, a link whose read answers missing or empty is not parked, so setting the delegate ready dispatches nothing |
| DeeplinkDelegate.RereadAfterRejectedRead | src/services/sunbird-splashscreen/splaschreen-deeplink-action-handler-delegate.ts:59-73 | while the answer stays empty, each link reads the preference again: after a rejected read on a ready delegate, a link whose read succeeds is read and dispatched, and only that link is dispatched |

## Left out

- Angular and Ionic plumbing is not modelled: dependency injection, the `Router`
  internals, the `Events` bus and the rxjs `Observable`/`toPromise` wrapping. Each
  collaborator call that acts is an `Effect`, and each answer is a field of `Env`. The
  `of(undefined)` that `onAction` returns carries no information and is not modelled.
- Real asynchrony is not modelled. Each operation runs as one sequential step with
  its answers fixed in `Env`. Interleavings of overlapping resolutions are left out,
  and so is the fact that `navigateQuizContent` is not awaited.
- Exceptions other than the rejected content fetch are not modelled: the model shows
  the effects of a run in which no collaborator throws. In the code, a throwing
  `resetSavedQuizContent` (line 82) or app-launch telemetry call (line 88) jumps to
  the empty `catch` at line 106 and skips every later effect of `navigateContent`.
  A throwing quiz telemetry call (line 112) or `isUserLoggedIn` (line 114) rejects
  the un-awaited quiz resolver and skips its later effects. A rejected `router.navigate` comes last and skips nothing.
- A rejected preference read is modelled as `Env.preference == None`. It leaves the
  cache empty and ends the check: the await throws before the assignment.
- Telemetry arguments (lines 124-138) are not modelled. Quiz-deeplink interact
  telemetry is the single effect `QuizDeeplinkTelemetry`, and app-launch telemetry
  with launch type DEEPLINK is `AppLaunchTelemetry`.
- A payload whose `url` is not a string is not modelled. The url is `Option<string>`.
- `toLowerCase` is modelled for ASCII only. It is applied only to the constant
  `ContentType.COURSE`.
- A general regular-expression engine is not modelled. Only the four fixed
  alternatives are.

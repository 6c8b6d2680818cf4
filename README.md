# Portfolio site: contact gatekeeping and client decision logic

A Dafny model of the logic of a personal portfolio site: a single-page
bilingual client and a small HTTP service that relays the contact form.

The service side is the `/api/contact` handler:

- A filled `company` honeypot field is answered `200 {ok: true}` at once.
- Otherwise an in-memory table from client address to request timestamps is
  pruned to the trailing 60 000 ms window.
- A caller with three or more recent entries gets `429`. Any other caller has
  the current time appended to its list.
- Only then are `name`, `email`, `subject` and `message` checked. A missing
  one gives `400`. When all are present the mail is sent.

`ContactServer.ContactEndpoint` holds that table as a `map` field. Its
`HandleContact` method is proved against the function `Decide`. The clock and
the client address are parameters. `RateLimitProperties` proves what the
handler promises. The strongest result is `AtMostThreePerWindow`. Take any
sequence of requests from any callers, in which the requests of one key all
arrive inside one 60 s window, interleaved with honeypot hits, 429s and other
callers' requests. At most three of that key's requests are recorded, so at
most three reach the mail transport.

The client side is modelled as a set of small state machines and pure
functions:

- `Typing`: the typed-role animation of the home page. The `Typewriter` class
  holds `roleIndex`, `typedRole` and `isDeleting`, and its `Tick` method is one
  timer callback.
- `Skills`, `SkillIcons`, `SkillsAnimation`: the category filter, icon
  resolution, the long card description, the summary counters and the
  staggered card reveal.
- `Portfolio`: the category filter and the project modal's selection.
- `ContactForm`: the form state, the check before sending, and the mapping
  from a response to a localized message.
- `FloatingDownload`: the set of CV links on screen, which decides whether the
  floating download button shows.
- `Routing` and `Language`: the route table, the navigation items and the
  language toggle.

`ContactRoundTrip` sets the client next to the server. It shows that a form
the client agrees to send is never answered `400`, and how the client reads
the server's answers.

The handler in `server/src/index.ts` keys the limiter by `req.ip` alone. It
has no email-format check, sends no retry-after value, and the service has no
CV-download route. Its error bodies are free text (`'Too many requests'`,
`'Missing required fields'`), not the error codes the client matches on.

## Model

| member | source | states |
|---|---|---|
| ContactServer.StatusCode | server/src/index.ts:19-58 | honeypot and sent mail answer 200, the rate limit 429, a missing field 400, and no other code |
| ContactServer.Prune | server/src/index.ts:27 | the pruned list keeps exactly the timestamps `ts` with `now - ts < 60000` and is no longer than the input |
| ContactServer.ClientKey | server/src/index.ts:23 | a present address is its own key; the key is 'unknown' exactly for an absent address or the address 'unknown' |
| ContactServer.Decide | server/src/index.ts:16-38 | the honeypot answer happens exactly for a filled `company`; honeypot and 429 leave the table as it was; the mail is attempted only with all four fields present; no key but the caller's changes; a recorded request ends the caller's list with `now` |
| ContactServer.ContactEndpoint.constructor | server/src/index.ts:14 | the table starts empty, which satisfies the table invariant |
| ContactServer.ContactEndpoint.HandleContact | server/src/index.ts:16-38 | the new table and outcome are those of `Decide`; honeypot and 429 leave the table as it was; otherwise only the caller's key changes, to its pruned list plus `now`; the table invariant is kept |
| ContactServer.DecidePreservesValid | server/src/index.ts:27-34 | every stored list stays non-empty, at most 3 long, and within 60 000 ms of its last entry |
| RateLimitProperties.HoneypotLeavesTableUnchanged | server/src/index.ts:19-21 | a non-empty `company` gives a 200 result and the table unchanged |
| RateLimitProperties.PruneKeepsExactlyYounger | server/src/index.ts:25-27 | an entry younger than the window is kept, every kept entry is younger, and an entry exactly 60 000 ms old is dropped |
| RateLimitProperties.PruneAppend | server/src/index.ts:27 | pruning keeps the relative order of the kept entries |
| RateLimitProperties.PruneKeepsAllRecent | server/src/index.ts:27 | a list whose entries are all within the window is kept whole |
| RateLimitProperties.PruneDropsAllOld | server/src/index.ts:27 | a list whose entries are all outside the window prunes to empty |
| RateLimitProperties.TooManyIffLimitReached | server/src/index.ts:26-31 | 429 happens exactly when the honeypot is empty and 3 or more recent entries remain, and then the table is not written |
| RateLimitProperties.AcceptAppendsNow | server/src/index.ts:33-34 | on acceptance the caller's list becomes the pruned list with `now` last; the other keys keep their lists and no key except the caller's is added |
| RateLimitProperties.MissingFieldStillConsumesSlot | server/src/index.ts:33-38 | a request with a missing field still records `now` before it gets 400 |
| RateLimitProperties.MissingIffFieldAbsent | server/src/index.ts:36-38 | 400 happens exactly when one of the four fields is empty or absent (and no earlier rule fired); the mail is attempted exactly when all four are present |
| RateLimitProperties.StoredListsStayShort | server/src/index.ts:27-34 | after any request every stored list has at most 3 entries |
| RateLimitProperties.AnonymousCallersShareQuota | server/src/index.ts:23 | a request without an address is keyed as 'unknown': a second such caller inside the window sees the first one's timestamp, exactly as a caller whose address is 'unknown' would |
| RateLimitProperties.WindowReopens | server/src/index.ts:25-34 | once all of a caller's stored entries have left the window, the caller is accepted again |
| RateLimitProperties.AtMostThreePerWindow | server/src/index.ts:23-34 | over any sequence of requests, from any callers, in which one key's requests all fall inside one window, at most 3 of that key's requests are recorded |
| Language.Toggle | client/src/App.tsx:2540 | the toggle always changes the language |
| Language.ToggleInvolution | client/src/App.tsx:2540 | toggling twice restores the language |
| Routing.RenderPage | client/src/App.tsx:2420-2438 | each of the six paths renders its own page, and every other path renders the home page |
| Routing.NavItems | client/src/App.tsx:2446-2456 | six items; the i-th item carries the i-th label, and its link renders the i-th page |
| Routing.RenderPageTotal | client/src/App.tsx:2420-2438 | any path outside the table renders the home page; a non-home page is only reached by its own path |
| Routing.NavItemsRenderTheirPages | client/src/App.tsx:2420-2456 | each navigation item renders its own page, and no two items render the same page |
| Skills.FilterSkills | client/src/App.tsx:1752 | a card is shown exactly when the filter is 'all' or the card has the filter's category |
| Skills.FilterAllIsCatalog | client/src/App.tsx:1752 | the 'all' filter returns the catalog unchanged |
| Skills.FilterPreservesOrder | client/src/App.tsx:1752 | the filter keeps the catalog's order |
| Skills.FilterKeepsOnlyCategory | client/src/App.tsx:1752 | any other filter keeps every card of that category and only such cards |
| Skills.FilterIdempotent | client/src/App.tsx:1752 | filtering twice equals filtering once |
| Skills.DeepDescription | client/src/App.tsx:135-137 | the text is the card's description, one space, then the detail text for the language and category |
| SkillIcons.ReplaceFirstAtFirstOccurrence | client/src/App.tsx:100 | for the first index i at which the pattern occurs, the result is the text before i, the replacement, then the text after that occurrence |
| SkillIcons.ReplaceFirstAbsent | client/src/App.tsx:100 | a string without the pattern is returned unchanged |
| SkillIcons.ResolveIcon | client/src/App.tsx:96 | a branded entry for the label wins over the given icon; otherwise the given icon is used |
| SkillIcons.RenderSkillIcon | client/src/App.tsx:95-104 | an image exactly when the resolved value starts with `img:`, whose source plus `img:` is that value and whose alt is the label plus " icon"; otherwise a glyph of the resolved value |
| SkillIcons.BrandedOverrides | client/src/App.tsx:96 | with a branded entry for the label, the card's own icon does not affect the result |
| SkillIcons.ImageSourceDropsPrefix | client/src/App.tsx:95-104 | without a branded entry, an `img:` icon gives an image whose source is the icon without the prefix, and any other icon gives that glyph |
| SkillsAnimation.SetCount | client/src/App.tsx:1702 | the named counter takes the new value and the other two keep theirs |
| SkillsAnimation.AnimateCounter | client/src/App.tsx:1698-1704 | max(target, 1) callbacks; each value shown is between 0 and the target; the values never decrease; the last one equals the target |
| SkillsAnimation.RunCounter | client/src/App.tsx:1698-1710 | running one counter's callbacks leaves that counter at its target and the others untouched |
| SkillsAnimation.RunSummary | client/src/App.tsx:1662-1710 | from the initial `{0, 0, 0}` the three counters end on their targets 82, 93 and 88 |
| SkillsAnimation.RevealDelay | client/src/App.tsx:1729 | the delay is `order * 28` up to the seventh card and 196 from then on, never above 196 |
| SkillsAnimation.RevealDelayMonotone | client/src/App.tsx:1729 | later cards never get a shorter delay |
| SkillsAnimation.RevealScheduler.OnEntries | client/src/App.tsx:1719-1735 | each intersecting entry takes the next reveal order, in entry order, with delay `RevealDelay(order)`; the counter grows by the number of intersecting entries |
| Typing.Step | client/src/App.tsx:1563-1581 | one tick keeps the role index within the list |
| Typing.Delay | client/src/App.tsx:1583-1585 | 1100 ms while a complete word is held, else 45 ms while deleting and 95 ms while typing |
| Typing.StepPreservesValid | client/src/App.tsx:1558-1581 | the index stays in range and the text stays a prefix of the current role |
| Typing.StepChangesTextByOne | client/src/App.tsx:1564-1577 | typing an incomplete word appends exactly the role's next character; deleting a non-empty text removes exactly its last character |
| Typing.StepChangesPhase | client/src/App.tsx:1569-1580 | a complete word flips to deleting with the text unchanged; an empty text while deleting stops deleting and moves to `(roleIndex + 1) mod` the number of roles |
| Typing.StepsValid | client/src/App.tsx:1558-1588 | any number of ticks keeps the state valid |
| Typing.RoleCycle | client/src/App.tsx:1558-1588 | from an empty text, a role of length n is typed, held, deleted and left in exactly 2n + 2 ticks, ending on the next role with an empty text |
| Typing.Typewriter.constructor | client/src/App.tsx:1548-1550 | the animation starts at the first role with nothing typed, not deleting |
| Typing.Typewriter.ResetFor | client/src/App.tsx:1552-1556 | a language change restarts the animation on the new role list |
| Typing.Typewriter.NextDelay | client/src/App.tsx:1583-1585 | the delay is one of 45, 95 and 1100, and it is 1100 exactly while a complete word is held |
| Typing.Typewriter.Tick | client/src/App.tsx:1563-1581 | one callback moves the state by `Step` and keeps it valid |
| Portfolio.FilterByCategory | client/src/App.tsx:2212 | keeps exactly the projects of the category |
| Portfolio.VisibleProjects | client/src/App.tsx:2210-2214 | 'all' shows every project unchanged; otherwise a project is shown exactly when it has the active category |
| Portfolio.FilterPreservesOrder | client/src/App.tsx:2212 | the filter keeps the projects' order |
| Portfolio.ActiveProject | client/src/App.tsx:2216 | a project is active exactly when the index is set and within the visible list, and it is the visible project at that index |
| Portfolio.NextIndex | client/src/App.tsx:2379 | nothing selected gives 0; otherwise the following index, wrapping to 0 after the last; always a valid index of a non-empty list |
| Portfolio.PressNextAdvances | client/src/App.tsx:2379 | before the end of the list each press moves one project forward |
| Portfolio.PressNextCycles | client/src/App.tsx:2379 | repeated presses reach every visible project within one round, and one full round returns to the start |
| Portfolio.PortfolioView.constructor | client/src/App.tsx:2207-2208 | the page starts on 'all' with no project open |
| Portfolio.PortfolioView.SelectCategory | client/src/App.tsx:2249-2252 | changing category resets the selection, so no project is active |
| Portfolio.PortfolioView.OpenProject | client/src/App.tsx:2266 | opening the i-th card sets the selection to exactly i, so that card's project is the active one |
| Portfolio.PortfolioView.Close | client/src/App.tsx:2220-2223 | Escape clears the selection and keeps the category; so do the backdrop click and the close button, client/src/App.tsx:2293 and 2295 |
| Portfolio.PortfolioView.NextProject | client/src/App.tsx:2379 | "next" moves the selection by `NextIndex` and a project stays active |
| Decimal.NatToString | client/src/App.tsx:541 | a non-empty string of digits without a leading zero |
| Decimal.IntToString | client/src/App.tsx:541 | '-' comes first exactly for negative numbers; what follows is a non-empty digit string without a leading zero that parses back to the magnitude of the number |
| Decimal.NatToStringRoundTrip | client/src/App.tsx:541 | parsing the rendered numeral gives the number back |
| ContactForm.ReadyToSend | client/src/App.tsx:520 | the form may be sent exactly when every field except the `company` honeypot is non-empty |
| ContactForm.WithField | client/src/App.tsx:513-515 | the named field takes the value and every other field keeps its own |
| ContactForm.WaitSuffix | client/src/App.tsx:541 | the suffix is non-empty exactly when `retryAfterSeconds` is present and not zero, and then it is " (Ns)" |
| ContactForm.ErrorMessage | client/src/App.tsx:539-557 | the message is the too-many text plus suffix, one of the fixed localized texts, or the payload's own message, and nothing else |
| ContactForm.TooManyTakesPrecedence | client/src/App.tsx:540-543 | a 429 or TOO_MANY_REQUESTS wins over every other rule; the suffix is added only when `retryAfterSeconds` is truthy |
| ContactForm.BadRequestNamesTheField | client/src/App.tsx:545-547 | a 400 with INVALID_EMAIL_FORMAT or MISSING_REQUIRED_FIELDS gives the matching text; a 400 with any other code falls through to the later rules |
| ContactForm.UnavailablePrefersPayloadMessage | client/src/App.tsx:549-551 | for 503 or CONTACT_SERVICE_UNAVAILABLE, the payload message if present, else the service-unavailable text |
| ContactForm.DeliveryFailureIgnoresPayloadMessage | client/src/App.tsx:553-555 | for 502 or EMAIL_DELIVERY_FAILED, the delivery-failed text whatever the payload message |
| ContactForm.OtherErrorsFallBack | client/src/App.tsx:557 | anything else shows the payload message if present, else the generic text |
| ContactForm.ContactPageState.constructor | client/src/App.tsx:502-511 | the form starts empty, not loading, with no messages |
| ContactForm.ContactPageState.OnChange | client/src/App.tsx:513-515 | only the named field changes; nothing else in the state does |
| ContactForm.ContactPageState.BeginSubmit | client/src/App.tsx:517-535 | an incomplete form sets the missing-fields message, clears success and sends nothing; a complete one sends the form, sets loading and clears both messages |
| ContactForm.ContactPageState.FinishSubmit | client/src/App.tsx:537-567 | an ok response sets the success text and empties all five fields; an error response sets the mapped message; a rejected fetch sets its error message; loading always ends |
| FloatingDownload.ApplyEntries | client/src/App.tsx:2505-2514 | an id becomes visible only through an intersecting entry about it, and stops being visible only through a non-intersecting one |
| FloatingDownload.LastEntryDecides | client/src/App.tsx:2504-2515 | a link is visible exactly when the last entry about it said it intersects; a link no entry mentions keeps its status |
| FloatingDownload.CvLinkWatcher.OnEntries | client/src/App.tsx:2504-2515 | the set is updated entry by entry, skipping entries without an id; the floating button shows exactly when the set is empty |
| ContactRoundTrip.ToBody | client/src/App.tsx:531-535 | the server's field check passes exactly when the client's does, and its honeypot is filled exactly when `company` is |
| ContactRoundTrip.ServerResponse | server/src/index.ts:19-58 | each outcome's status is `StatusCode`, and no body carries a message or `retryAfterSeconds` |
| ContactRoundTrip.ClientCheckMatchesServer | server/src/index.ts:36-38 | a form the client agrees to send is never answered 400 |
| ContactRoundTrip.RateLimitShowsTooMany | client/src/App.tsx:540-543 | the handler's 429 shows the too-many text without a wait suffix |
| ContactRoundTrip.ServerMissingReadsAsGeneric | client/src/App.tsx:545-557 | the handler's 400 body carries no code the client knows, so it would show the generic text |
| ContactRoundTrip.HoneypotLooksLikeSuccess | server/src/index.ts:19-21 | a bot that fills the honeypot gets the same answer as a sent mail, and the table is unchanged |

## Left out

- Mail dispatch: `nodemailer.createTransport` and `sendMail` (server/src/index.ts:40-56) are calls into a mail library. `Proceed` stands for "the mail is sent, then 200". A transport failure, which makes the handler's promise reject, is not modelled.
- `dotenv`, `express`, `cors`, `express.json` and `app.listen`: configuration and HTTP plumbing, with no logic of the handler's own.
- `Date.now()` and `req.ip` are parameters of `HandleContact` and `Decide`.
- Request bodies are modelled as optional strings. A non-string JSON field value, or a missing body (where the destructuring would throw), is not modelled.
- The DOM, JSX markup and CSS class strings. `SkillIcons.IconView` keeps only the variant, not the class names built from it.
- `IntersectionObserver` wiring, and the page-wide reveal observer (client/src/App.tsx:2469-2493). Only the bookkeeping of the two callbacks with state (`RevealScheduler`, `CvLinkWatcher`) is modelled. The summary observer that starts the counters (1674-1692) is not.
- Timer scheduling (`setTimeout`, `setInterval`, `clearTimeout`, `clearInterval`). Each callback is one method call or one loop iteration. The boot preloader's 2 s timer is not modelled.
- Typing.Typewriter.ResetFor: the reset is modelled as one atomic step. A timer armed with stale state during the same React commit is cleared before it fires, and that interleaving is not modelled.
- `history.pushState`, `popstate`, `navigateTo` and the `Link` click handler: browser navigation. Only the mapping from a path to a page is modelled.
- `triggerDualCvDownload` (client/src/App.tsx:1492-1507): anchor creation and clicks in the DOM.
- The modal's `body.style.overflow` and the keydown listener. Escape is modelled as `PortfolioView.Close`.
- Portfolio.PortfolioView: the project list is fixed per view. A language change keeps the selection over another language's list, and that case is not modelled.
- `fetch`, the request headers and `response.json()`: the answer is a `FetchResult` input. A body that is not JSON reads as `NoPayload`.
- ContactForm.WaitSuffix: `retryAfterSeconds` is modelled as a whole number. Fractional values and NaN are not modelled.
- SkillsAnimation.RunSummary: runs the three counters one after another. In the browser their interval callbacks interleave; each callback writes only its own key, so the end state is the same, but the intermediate states are not modelled.
- Decimal.IntToString: prints every whole number in plain digits. JavaScript prints `${n}` from a double, so an integer beyond 2^53 is rounded (2^64 prints as "18446744073709552000") and one of 10^21 or more uses exponent form ("1e+21"). This server never sends `retryAfterSeconds`, so only other servers' values are affected.
- Typing.Step: counts a role's characters as Unicode scalar values. `String.prototype.slice` counts UTF-16 code units, so a role with a character outside the Basic Multilingual Plane would show a lone surrogate half-way and take more ticks than `RoleCycle`'s 2n + 2. The role lists shipped in the client have no such character.
- ContactForm.ContactPageState: the localized texts are fixed when the page state is created. The component re-reads `copy[lang].contact` on every render and keeps `formData` across a language change, so after a change the messages set later would come from the new language. That change is not modelled.
- The branch that shows the floating download button when the page has no CV-download link (client/src/App.tsx:2497-2500) is not modelled; only the observer callback's set bookkeeping is.
- The static bilingual content tables (`copy`, `rolesByLang`, `skillsCatalog`, `brandedSkillIcons`, `skillDetailByCategory`, `portfolioContent` and the others) are data. They appear as parameters: role lists, a branded-icon map, a detail function, `ContactText`.
- `SkillIcons.ResolveIcon` treats the branded table as a map of its own keys. JavaScript's inherited object properties (a label such as `constructor`) are not modelled. No catalog label has such a name.
- client/src/WhatsAppFloat.tsx (a constant link), client/scripts/check-conflicts.mjs (a file walk) and client/src/main.tsx (the React bootstrap) have no decision logic.

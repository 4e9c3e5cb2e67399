# Marketing site: lead form, submission and case-study loader

A Dafny model of the only logic in the agency's single-page site
(`src/App.jsx`). The page is otherwise static layout. Three pieces are modelled:

- **The lead form** (`LeadForm`, `ServicePicker`). The form is an immutable record
  with the fields name, email, company, website, services, budget, message and
  an optional phone. Each input's change handler replaces exactly one field.
  The service buttons toggle an entry in the `services` list. A selected
  service has every occurrence filtered out, and an unselected one is appended.
- **The submission lifecycle** (`Submission`). The status is
  `Idle | Sending | Success | Error`, where `Idle` is the initial `null`.
  `submit` first sets `Sending`. The request is then replaced by its outcome:
  `Ok`, `NotOk` (`res.ok` false, which throws) or `Thrown`. On `Ok` the status
  becomes `Success` and the form is reset. Otherwise the status becomes `Error`
  and the form is kept. The button label and the notice are modelled as
  functions of the status.
- **The case-study loader** (`CaseStudies`). The state is `loading` plus
  `items`. The fetch and JSON decoding are replaced by an outcome: a response
  (HTTP status plus the body's `items`, possibly missing) or a thrown error.
  Once the request settles, loading ends on every path. The view is the
  loading notice, the empty notice or one card per item.

All I/O is replaced by an outcome parameter. The network, `res.json()`,
`JSON.stringify` and the backend URL lookup are not modelled.

Three behaviours of the code are easy to misread:

- A non-2xx case-study response is not treated as a failure. The code never
  reads `res.ok` there (src/App.jsx:128-130), so a non-2xx body that has
  `items` is shown. `CaseStudies.LoadIgnoresHttpStatus` states this.
- `services` is a list, not a set. Toggling a selected service twice gives
  the same set, but the service moves to the end of the list
  (`ServicePicker.ToggleTwiceFromPresent`, `ServicePicker.ToggleTwiceReorders`).
- The reset literal has no `phone` property (src/App.jsx:193), so a successful
  submission drops an entered phone number (`Submission.SuccessDropsPhone`).

## Model

| member | source | states |
|---|---|---|
| ServicePicker.RemoveAll | src/App.jsx:178 | The filter drops every occurrence of the service and keeps every other element with its multiplicity, so its multiset is the old one with that service's count set to zero. |
| ServicePicker.Toggle | src/App.jsx:175-180 | A present service ends up absent, with the other counts unchanged. An absent service is appended: the length grows by one and the old list is an unchanged prefix. As a set, the service is removed or added. |
| ServicePicker.RemoveAllAbsent | src/App.jsx:178 | Filtering out a service that is not selected returns the identical list. |
| ServicePicker.RemoveAllAppend | src/App.jsx:178 | Filtering distributes over concatenation, so the remaining services keep their relative order. |
| ServicePicker.RemoveAllDistinct | src/App.jsx:178 | Filtering a list without duplicates gives a list without duplicates. |
| ServicePicker.ToggleKeepsDistinct | src/App.jsx:177-178 | If the selection has no duplicates before a toggle, it has none after. |
| ServicePicker.ToggleTwiceFromAbsent | src/App.jsx:177-178 | Toggling an unselected service twice returns the identical list. |
| ServicePicker.ToggleTwiceFromPresent | src/App.jsx:177-178 | Toggling a selected service twice gives the same set. As a list, it is the other services in their old order followed by the toggled one. |
| ServicePicker.ToggleTwiceRestoresLast | src/App.jsx:177-178 | For a selection without duplicates whose last element is the service, toggling it twice returns the identical list. |
| ServicePicker.ToggleTwiceEndsWith | src/App.jsx:177-178 | Toggling a selected service twice always leaves it as the last element. |
| ServicePicker.ToggleTwiceRestoresIff | src/App.jsx:177-178 | For a selection without duplicates that contains the service, a double toggle restores the identical list exactly when that service was last. |
| ServicePicker.ToggleTwiceReorders | src/App.jsx:177-178 | A concrete case: toggling "Paid Social" twice in ["Paid Social", "CRO"] gives ["CRO", "Paid Social"]. |
| ServicePicker.ToggleStaysWithinOptions | src/App.jsx:199-221 | Toggling one of the five offered options keeps the selection within the offered options. |
| LeadForm.SetField | src/App.jsx:208-237 | An input's change handler stores the value in its own field, and the input then displays that value. Every other field and the services are unchanged. |
| LeadForm.SetFieldDetermined | src/App.jsx:208-237 | The contract of SetField determines its result: a form that holds the value in the field and agrees elsewhere is that result. |
| LeadForm.ToggleService | src/App.jsx:175-180 | A service click removes every occurrence of a selected service, leaving the other counts unchanged, or appends an unselected one. No text field, including the phone, changes. |
| LeadForm.ToggleServiceKeepsDistinct | src/App.jsx:175-180 | A form whose services have no duplicates keeps that property through a toggle. |
| LeadForm.EditsKeepWellFormed | src/App.jsx:199-237 | A field edit, or a click on one of the offered option buttons, keeps the services free of duplicates and within the offered options. |
| LeadForm.LastSetCons | src/App.jsx:208-237 | An earlier edit decides a field's latest value only when no later edit touches that field. |
| LeadForm.ApplyEditsKeepsLastValue | src/App.jsx:208-237 | After any run of edits, each field holds its last edited value. A field that was never edited keeps its prior value, and the services are untouched. |
| Submission.Begin | src/App.jsx:182-184 | The first step of submit sets the status to Sending before anything is awaited, and leaves the form unchanged. |
| Submission.Settle | src/App.jsx:191-196 | An ok response gives Success and a form equal to the initial one. A not-ok response or a thrown error gives Error and keeps the form. |
| Submission.Submit | src/App.jsx:182-197 | A submission with nothing else happening while it is pending ends in Success with the initial empty form (no services, no phone) on Ok. It ends in Error with the pre-submit form otherwise. |
| Submission.ButtonLabel | src/App.jsx:240 | The label is "Sending..." exactly when the status is Sending, and "Request proposal" otherwise. |
| Submission.NoticeFor | src/App.jsx:244-249 | The thank-you notice shows exactly on Success. The try-again notice shows exactly on Error. |
| Submission.InitialShowsNothing | src/App.jsx:172-173 | On mount the button reads "Request proposal", no notice shows, every input is blank and no service is selected. |
| Submission.RunKeepsWellFormed | src/App.jsx:175-237 | Any run of edits, option clicks, submit presses and request settlements, in any interleaving, keeps the services free of duplicates and within the offered options. |
| Submission.ReachableWellFormed | src/App.jsx:172-237 | Every state reachable from mount, including states with requests pending, has services without duplicates, all drawn from the offered options. |
| Submission.EditWhilePending | src/App.jsx:182-196 | While a request is pending the status stays Sending and the inputs still edit the form. An edit made then survives a failed request and is wiped by a successful one. |
| Submission.LastToSettleWins | src/App.jsx:182-196 | With two submissions pending, the request that settles last decides the final status, whichever was sent first. |
| Submission.BeginShowsSending | src/App.jsx:182-184 | Once submit starts, the button reads "Sending..." and no notice shows, whatever the prior status. |
| Submission.SettledShowsNotice | src/App.jsx:191-196 | After the request settles, the button reads "Request proposal". The notice is the thank-you on Ok and the try-again otherwise. |
| Submission.SuccessDropsPhone | src/App.jsx:193 | After a successful submission the phone is absent and its input shows the empty string, even if a phone was entered. |
| Submission.RetryAfterFailure | src/App.jsx:191-196 | A failed submission keeps the form. A retry then ends exactly as if the failure had not happened. |
| Submission.SubmitIgnoresPriorStatus | src/App.jsx:182-197 | The result of a submission depends on the form and the outcome, not on the status it started from. |
| Submission.JoScenario | src/App.jsx:182-197 | A form for "Jo" with "Paid Social" is reset on Ok. It is kept unchanged with Error on NotOk and on Thrown. |
| CaseStudies.Load | src/App.jsx:125-138 | Once the request settles, loading ends on every path. The items are the body's items when present. They are empty when the body lacks items or the request throws. |
| CaseStudies.LoadIgnoresHttpStatus | src/App.jsx:128-130 | The HTTP status never affects the result. A non-2xx response with items still yields those items. |
| CaseStudies.LoadIgnoresPriorState | src/App.jsx:130-134 | The loaded items replace the previous ones wholesale. |
| CaseStudies.CardOf | src/App.jsx:154-161 | A card shows the image and impact only when they are non-empty. The industry line is the industry, or a dash when it is missing or empty. Title and summary are copied. |
| CaseStudies.Cards | src/App.jsx:153-163 | There is one card per item, in item order. |
| CaseStudies.ViewOf | src/App.jsx:146-151 | The loading notice shows exactly while loading. The empty notice shows exactly when not loading and there are no items. Otherwise there is a card grid matching the items. |
| CaseStudies.LoadedView | src/App.jsx:125-151 | After a load the loading notice never shows. The empty notice shows exactly when the request threw, the body had no items, or the items were empty. |
| CaseStudies.LoadScenarios | src/App.jsx:125-151 | Two items give two cards, and a 500 without items gives the empty notice. A 500 whose body has an item shows that item, and an empty list gives the empty notice. |

## Left out

- `fetch`, `res.json()` and `JSON.stringify` are foreign I/O. The request is replaced by its outcome. The lead body (the form plus `source = "website"`) is not modelled.
- The backend URL from `import.meta.env.VITE_BACKEND_URL` (src/App.jsx:4) is configuration read outside this code.
- Submission.Submit: runs one submission with nothing in between its start and its settling, so its "pre-submit form" assumes no input is typed while the request is pending. The event model (`Submission.Step`, `Submission.Run`) has no such assumption: there the settle acts on the form as it is when the request settles.
- Requests are not identified. A `Resolve` event does not name the request it settles, and the model does not pair each `Resolve` with an earlier `Start`. Settling never depends on which request settles, so any settling order of overlapping requests is still a run of events.
- There is no timeout and no abort for either request. A request that never settles leaves the state as it was before `CaseStudies.Load` or `Submission.Settle` applies. In that state `CaseStudies.ViewOf(CaseStudies.Initial)` is the loading notice and `Submission.BeginShowsSending` holds, so the page keeps showing "Loading case studies..." or "Sending..." for good.
- React mechanics are not modelled: `useState`, `useEffect`, rendering and `e.preventDefault()`. The text inputs build the new form from the rendered `form` rather than from the latest state, so edits within one render could be lost. The model applies edits one at a time.
- A body whose `items` is truthy but not an array would make the render throw. The model types `items` as a list of case studies.
- The browser's `required` and `type=email` checks (src/App.jsx:208-209) happen before `submit` and are outside this code.
- The static sections `Hero`, `Services` and `Footer` are left out, along with the footer's current year, scrolling, styling and icons (src/App.jsx:6-119, 261-273).

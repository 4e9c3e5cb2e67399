/** The "Proven results" section: the one-shot load of the case studies and
    the choice between the loading notice, the empty notice and the cards
    (src/App.jsx:121-169). The request and the JSON decoding are replaced by
    their outcome, which `Load` takes as a parameter. */
module CaseStudies {
  import opened Wrappers

  /** One case study as the backend sends it; the optional properties may be
      missing from the JSON object. */
  datatype CaseStudy = CaseStudy(
    id: string,
    title: string,
    industry: Option<string>,
    summary: string,
    impact: Option<string>,
    imageUrl: Option<string>)

  /** The section's state: `loading` and `items`. */
  datatype Loader = Loader(loading: bool, items: seq<CaseStudy>)

  /** Before the effect has run: loading, nothing to show (src/App.jsx:122-123). */
  const Initial: Loader := Loader(true, [])

  /** How `fetch` and `res.json()` ended. A response carries its HTTP status
      and the `items` property of the decoded body, `None` when that property
      is missing or falsy. `Thrown` covers a rejected fetch, a body that is
      not JSON, and a JSON `null` body whose `.items` throws. */
  datatype Outcome =
    | Responded(httpStatus: int, items: Option<seq<CaseStudy>>)
    | Thrown

  /** The effect's outcome applied to the state: `setItems(data.items || [])`
      or `setItems([])` in the catch, then `setLoading(false)` in the finally.
      The HTTP status is never consulted. */
  function Load(st: Loader, o: Outcome): (r: Loader)
    ensures !r.loading
    ensures o.Responded? && o.items.Some? ==> r.items == o.items.value
    ensures o.Thrown? || o.items.None? ==> r.items == []
  {
    match o
    case Responded(_, body) => Loader(false, body.GetOr([]))
    case Thrown => Loader(false, [])
  }

  /** Whatever the HTTP status, a body with `items` yields those items: a
      non-2xx response is not treated as a failure. */
  lemma LoadIgnoresHttpStatus(st: Loader, a: int, b: int, body: Option<seq<CaseStudy>>)
    ensures Load(st, Responded(a, body)) == Load(st, Responded(b, body))
  {
  }

  /** The loaded items replace the old ones wholesale. */
  lemma LoadIgnoresPriorState(st1: Loader, st2: Loader, o: Outcome)
    ensures Load(st1, o) == Load(st2, o)
  {
  }

  /** JavaScript truthiness of an optional string: present and non-empty. */
  predicate Truthy(o: Option<string>) {
    o.Some? && o.value != ""
  }

  /** What one card displays. */
  datatype Card = Card(
    key: string,
    image: Option<string>,
    industryLine: string,
    title: string,
    summary: string,
    impact: Option<string>)

  /** The card of one case study (src/App.jsx:154-161): the image and the
      impact line appear only when truthy, the industry line falls back to a
      dash. */
  function CardOf(cs: CaseStudy): (c: Card)
    ensures c.key == cs.id && c.title == cs.title && c.summary == cs.summary
    ensures c.image.Some? <==> Truthy(cs.imageUrl)
    ensures c.image.Some? ==> c.image == cs.imageUrl
    ensures c.impact.Some? <==> Truthy(cs.impact)
    ensures c.impact.Some? ==> c.impact == cs.impact
    ensures c.industryLine != ""
    ensures Truthy(cs.industry) ==> c.industryLine == cs.industry.value
    ensures !Truthy(cs.industry) ==> c.industryLine == "—"
  {
    Card(
      cs.id,
      if Truthy(cs.imageUrl) then cs.imageUrl else None,
      if Truthy(cs.industry) then cs.industry.value else "—",
      cs.title,
      cs.summary,
      if Truthy(cs.impact) then cs.impact else None)
  }

  /** `items.map(...)`: one card per item, in order. */
  function Cards(items: seq<CaseStudy>): (cs: seq<Card>)
    ensures |cs| == |items|
    ensures forall i :: 0 <= i < |items| ==> cs[i] == CardOf(items[i])
  {
    if items == [] then [] else [CardOf(items[0])] + Cards(items[1..])
  }

  /** What the section shows below its heading. */
  datatype View = LoadingNotice | EmptyNotice | Grid(cards: seq<Card>)

  /** The render choice (src/App.jsx:146-151). */
  function ViewOf(st: Loader): (v: View)
    ensures v == LoadingNotice <==> st.loading
    ensures v == EmptyNotice <==> !st.loading && |st.items| == 0
    ensures v.Grid? ==> |v.cards| == |st.items| > 0
    ensures v.Grid? ==> forall i :: 0 <= i < |st.items| ==> v.cards[i] == CardOf(st.items[i])
  {
    if st.loading then LoadingNotice
    else if |st.items| == 0 then EmptyNotice
    else Grid(Cards(st.items))
  }

  /** After the load, the loading notice is gone for good; the empty notice
      shows exactly when there is nothing to show, whether the body had no
      `items`, an empty `items`, or the request failed. */
  lemma LoadedView(st: Loader, o: Outcome)
    ensures ViewOf(Load(st, o)) != LoadingNotice
    ensures ViewOf(Load(st, o)) == EmptyNotice <==>
      o.Thrown? || o.items.None? || |o.items.value| == 0
  {
  }

  /** The scenarios of two items, a server error without a body, and a
      server error whose body still lists an item. */
  lemma LoadScenarios(a: CaseStudy, b: CaseStudy)
    ensures ViewOf(Load(Initial, Responded(200, Some([a, b])))) == Grid([CardOf(a), CardOf(b)])
    ensures ViewOf(Load(Initial, Responded(500, None))) == EmptyNotice
    ensures ViewOf(Load(Initial, Responded(500, Some([a])))) == Grid([CardOf(a)])
    ensures ViewOf(Load(Initial, Responded(200, Some([])))) == EmptyNotice
    ensures ViewOf(Initial) == LoadingNotice
  {
  }
}

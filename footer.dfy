/**
 * The footer: a link per formation, fetched from the backend table and
 * re-fetched on every change notification, beside a fixed list of links
 * to the page's own sections.
 */
module Footer {
  import opened Wrappers

  /** A row of the `id, title` projection of the formations table. */
  datatype Row = Row(id: string, title: string)

  /** A footer link to a formation; `text` is the link's label. */
  datatype FormationLink = FormationLink(id: string, text: string, href: string)

  /** A footer link to a section of the landing page; `text` is its label. */
  datatype AcademyLink = AcademyLink(text: string, href: string)

  /** The error a failed query reports. */
  datatype FetchError = FetchError(message: string)

  /** Every formation link points at the catalog section. */
  const FormationsAnchor := "#formations"

  /** The "L'Academy" column. */
  const AcademyLinks: seq<AcademyLink> := [
    AcademyLink("\U{00C0} Propos", "#a-propos"),
    AcademyLink("Pourquoi Nous", "#pourquoi"),
    AcademyLink("Contact", "#contact")
  ]

  /** The link made from one row. */
  function ToLink(row: Row): (link: FormationLink)
    ensures link.id == row.id && link.text == row.title && link.href == FormationsAnchor
  {
    FormationLink(row.id, row.title, FormationsAnchor)
  }

  /** The links for a successful query: one per row, in row order. */
  function ToLinks(rows: seq<Row>): (links: seq<FormationLink>)
    ensures |links| == |rows|
    ensures forall i :: 0 <= i < |rows| ==>
      links[i].id == rows[i].id && links[i].text == rows[i].title && links[i].href == FormationsAnchor
  {
    if rows == [] then [] else [ToLink(rows[0])] + ToLinks(rows[1..])
  }

  /** The row a link was made from. */
  function ToRow(link: FormationLink): Row {
    Row(link.id, link.text)
  }

  function ToRows(links: seq<FormationLink>): seq<Row> {
    if links == [] then [] else [ToRow(links[0])] + ToRows(links[1..])
  }

  /** No row information is lost: the rows can be read back from the links. */
  lemma {:induction false} RowsRoundTrip(rows: seq<Row>)
    ensures ToRows(ToLinks(rows)) == rows
  {
    if rows != [] {
      RowsRoundTrip(rows[1..]);
      assert ToLinks(rows)[1..] == ToLinks(rows[1..]);
    }
  }

  /**
   * One run of the fetch: on an error the list is emptied, otherwise it
   * becomes the links of the returned rows. `previous` is what the footer
   * showed before; it is replaced, never merged.
   */
  function Refetch(previous: seq<FormationLink>, fetched: Result<seq<Row>, FetchError>): (links: seq<FormationLink>)
    ensures fetched.Failure? ==> links == []
    ensures fetched.Success? ==> links == ToLinks(fetched.value)
  {
    match fetched
    case Failure(_) => []
    case Success(rows) => ToLinks(rows)
  }

  /**
   * The links after a series of fetch results has been applied, `fetches`
   * holding the results of the mount fetch and of the fetches started by
   * change notifications in the order their responses ARRIVE (the order in
   * which the footer's state is set), not the order they were started.
   */
  function AfterFetches(initial: seq<FormationLink>, fetches: seq<Result<seq<Row>, FetchError>>): seq<FormationLink>
    decreases |fetches|
  {
    if fetches == [] then initial
    else AfterFetches(Refetch(initial, fetches[0]), fetches[1..])
  }

  /** Only the last response to arrive matters: each one replaces the list in full. */
  lemma {:induction false} LastFetchWins(initial: seq<FormationLink>, fetches: seq<Result<seq<Row>, FetchError>>)
    requires fetches != []
    ensures AfterFetches(initial, fetches) == Refetch(initial, fetches[|fetches| - 1])
    decreases |fetches|
  {
    if |fetches| > 1 {
      LastFetchWins(Refetch(initial, fetches[0]), fetches[1..]);
    }
  }

  /** A failed fetch empties the list whatever came before it. */
  lemma ErrorEmptiesList(initial: seq<FormationLink>, fetches: seq<Result<seq<Row>, FetchError>>, e: FetchError)
    ensures AfterFetches(initial, fetches + [Failure(e)]) == []
  {
    LastFetchWins(initial, fetches + [Failure(e)]);
  }

  /** The targets of a list of section links. */
  function Hrefs(links: seq<AcademyLink>): (hs: seq<string>)
    ensures |hs| == |links| && forall i :: 0 <= i < |links| ==> hs[i] == links[i].href
  {
    if links == [] then [] else [links[0].href] + Hrefs(links[1..])
  }

  /** The section links are exactly "About", "Why us" and "Contact", in that order. */
  lemma AcademyLinksFixed()
    ensures Hrefs(AcademyLinks) == ["#a-propos", "#pourquoi", "#contact"]
  {
  }
}

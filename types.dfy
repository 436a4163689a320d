/** The shared records of the application: a book, the navigation tabs and the page delimiter. */
module Types {
  import opened JsCore

  /**
   * A book of the library (also shown as a feed post). Optional fields of
   * the record are `Option`s; numbers that count things are integers and
   * the rating and price are reals.
   */
  datatype Book = Book(
    id: string,
    title: string,
    author: string,
    authorAvatar: Option<string>,
    coverUrl: string,
    rating: real,
    likesCount: Option<int>,
    commentsCount: Option<int>,
    price: Option<real>,
    isFree: Option<bool>,
    category: Option<string>,
    series: Option<string>,
    content: Option<string>,
    isLiked: Option<bool>
  )

  /** The five tabs of the bottom navigation; `Id` is the string literal of the union type. */
  datatype NavTab = Home | Search | Create | Store | Profile {
    function Id(): (s: string)
      ensures |s| > 0
    {
      match this
      case Home => "home"
      case Search => "search"
      case Create => "create"
      case Store => "store"
      case Profile => "profile"
    }
  }

  /** The tab whose literal is `s`, if `s` is one of the five literals. */
  function TabOfId(s: string): (r: Option<NavTab>)
    ensures r.Some? ==> r.value.Id() == s
  {
    if s == "home" then Some(Home)
    else if s == "search" then Some(Search)
    else if s == "create" then Some(Create)
    else if s == "store" then Some(Store)
    else if s == "profile" then Some(Profile)
    else None
  }

  /** Every tab literal is recognised as its own tab, so the literals are pairwise distinct. */
  lemma TabIdRoundTrip(t: NavTab)
    ensures TabOfId(t.Id()) == Some(t)
  {
  }

  /** The separator written between the pages of a draft. */
  const PageMarker: string := "<!-- PAGE_BREAK -->"
  const PageDelimiter: string := "\n\n" + PageMarker + "\n\n"
}

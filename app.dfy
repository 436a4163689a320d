/**
 * The application shell: the library of books, the selected tab and
 * category, the theme, the open book and the settings overlay. Every
 * handler replaces the state wholesale, so each is a function from the old
 * state to the new one.
 */
module App {
  import opened JsCore
  import opened Types

  datatype Theme = Light | Dark

  datatype AppState = AppState(
    activeTab: NavTab,
    myBooks: seq<Book>,
    viewingBook: Option<Book>,
    selectedCategory: string,
    theme: Theme,
    showSettings: bool
  )

  const AllCategories: string := "Todos"

  /** The category chips, in display order. */
  const Categories: seq<string> := [AllCategories, "Romance", "Ficção", "Terror", "Autoajuda", "Negócios", "História"]

  /** Book 1 of the starting library, "Renovação Social e Imortalidade". */
  const SocialRenewal: Book :=
    Book("1", "Renovação Social e Imortalidade", "Grupo Marcos",
      Some("https://picsum.photos/100/100?random=1"), "https://picsum.photos/400/500?random=1",
      5.0, Some(1240), Some(45), None, Some(true), Some("Filosofia"), Some("Filosofia Moderna"),
      Some("CAPÍTULO 1\n\nO sol da manhã iluminava suavemente as colinas, trazendo consigo a promessa de um novo tempo. A sociedade, há muito estagnada em seus velhos costumes, começava a sentir os ventos da mudança soprarem através das ruas de paralelepípedos."),
      Some(true))

  /** Book 2 of the starting library, "Vampirização". */
  const Vampirization: Book :=
    Book("2", "Vampirização", "Rev. Ezagui",
      Some("https://picsum.photos/100/100?random=2"), "https://picsum.photos/400/500?random=2",
      4.8, Some(856), Some(12), None, Some(true), Some("Terror"), Some("Mistérios Ocultos"),
      Some("PRÓLOGO\n\nA noite estava densa, e o nevoeiro cobria a cidade como um manto gélido. Poucos ousavam sair de suas casas após o toque de recolher, mas Helena não tinha escolha. Precisava encontrar o remédio para sua mãe."),
      Some(false))

  /** Book 3 of the starting library, "Pontos Vitais da Evolução". */
  const VitalPoints: Book :=
    Book("3", "Pontos Vitais da Evolução", "Leitura BR",
      Some("https://picsum.photos/100/100?random=3"), "https://picsum.photos/400/500?random=3",
      4.9, Some(2300), Some(156), Some(4.99), Some(true), Some("Ciência"), None,
      Some("INTRODUÇÃO\n\nA evolução não é uma linha reta. É uma espiral complexa, repleta de pontos vitais onde decisões cruciais determinam o destino de espécies inteiras. Neste volume, exploraremos os momentos."),
      Some(false))

  /** Book 4 of the starting library, "O Despertar". */
  const Awakening: Book :=
    Book("4", "O Despertar", "Consciência Viva",
      Some("https://picsum.photos/100/100?random=4"), "https://picsum.photos/400/500?random=4",
      4.5, Some(54), Some(2), None, Some(true), Some("Autoajuda"), None,
      Some("CAPÍTULO ÚNICO\n\nAcordar é fácil. Despertar é o desafio. Todos os dias abrimos os olhos para o mundo físico, mas quantas vezes abrimos os olhos da mente para a realidade que nos cerca?"),
      Some(false))

  /** Book 5 of the starting library, "Futuro Distante". */
  const DistantFuture: Book :=
    Book("5", "Futuro Distante", "AI Writer",
      Some("https://picsum.photos/100/100?random=5"), "https://picsum.photos/400/500?random=5",
      4.2, None, None, None, None, Some("Ficção Científica"), None,
      Some("ANO 3042. A Terra não é mais a mesma."),
      Some(false))

  /** The five books the library starts with. */
  const InitialBooks: seq<Book> := [SocialRenewal, Vampirization, VitalPoints, Awakening, DistantFuture]

  /** The state on start-up: the home tab, every category, the light theme. */
  function InitialState(): (s: AppState)
    ensures s.myBooks == InitialBooks && |s.myBooks| == 5 && s.activeTab == Home && s.theme == Light
    ensures s.selectedCategory == AllCategories && s.viewingBook.None? && !s.showSettings
  {
    AppState(Home, InitialBooks, None, AllCategories, Light, false)
  }

  // ---------------------------------------------------------------------------
  // Theme

  /** `toggleTheme`: the other theme. */
  function ToggleTheme(t: Theme): (r: Theme)
    ensures r != t
  {
    if t == Light then Dark else Light
  }

  /** Toggling twice restores the theme. */
  lemma ToggleThemeTwice(t: Theme)
    ensures ToggleTheme(ToggleTheme(t)) == t
  {
  }

  // ---------------------------------------------------------------------------
  // Saving a book

  const DefaultTitle: string := "Sem Título"
  const OwnAuthor: string := "Você"
  const OwnAvatar: string := "https://ui-avatars.com/api/?name=Voce&background=000&color=fff"
  const OwnCategory: string := "Meus Livros"
  const CoverPrefix: string := "https://picsum.photos/400/500?random="

  /**
   * The book `handleSaveBook` creates. `idTime` and `coverTime` are the two
   * readings of `Date.now()`, for the id and for the fallback cover.
   */
  function NewBook(title: string, content: string, coverImage: Option<string>,
                   idTime: nat, coverTime: nat): (b: Book)
    ensures b.title == (if title == "" then DefaultTitle else title)
    ensures b.content == Some(content)
    ensures b.id == NatToString(idTime)
    ensures coverImage.Some? && coverImage.value != "" ==> b.coverUrl == coverImage.value
    ensures coverImage.None? || coverImage.value == "" ==> b.coverUrl == CoverPrefix + NatToString(coverTime)
    ensures b.author == OwnAuthor && b.authorAvatar == Some(OwnAvatar)
    ensures b.likesCount == Some(0) && b.commentsCount == Some(0)
    ensures b.category == Some(OwnCategory) && b.isLiked == Some(false)
    ensures b.rating == 5.0 && b.isFree == Some(true) && b.price.None? && b.series.None?
  {
    Book(NatToString(idTime), OrElse(Some(title), DefaultTitle), OwnAuthor, Some(OwnAvatar),
         OrElse(coverImage, CoverPrefix + NatToString(coverTime)),
         5.0, Some(0), Some(0), None, Some(true), Some(OwnCategory), None, Some(content), Some(false))
  }

  /** `handleSaveBook`: the new book in front of the unchanged library, and back to the home tab. */
  function SaveBook(s: AppState, title: string, content: string, coverImage: Option<string>,
                    idTime: nat, coverTime: nat): (r: AppState)
    ensures |r.myBooks| == |s.myBooks| + 1
    ensures r.myBooks[0] == NewBook(title, content, coverImage, idTime, coverTime)
    ensures r.myBooks[1..] == s.myBooks
    ensures r.activeTab == Home
    ensures r.theme == s.theme && r.selectedCategory == s.selectedCategory
    ensures r.viewingBook == s.viewingBook && r.showSettings == s.showSettings
  {
    s.(myBooks := [NewBook(title, content, coverImage, idTime, coverTime)] + s.myBooks, activeTab := Home)
  }

  // ---------------------------------------------------------------------------
  // Likes

  /** `!b.isLiked`: undefined counts as not liked. */
  function Liked(b: Book): bool {
    b.isLiked == Some(true)
  }

  /** `{ ...b, isLiked: !b.isLiked }`. */
  function FlipLike(b: Book): (r: Book)
    ensures r.isLiked == Some(!Liked(b))
    ensures b.isLiked.None? ==> r.isLiked == Some(true)
    ensures r.(isLiked := b.isLiked) == b
  {
    b.(isLiked := Some(!Liked(b)))
  }

  /** `handleToggleLike`: the `map` that flips the books with the given id. */
  function ToggleLike(books: seq<Book>, id: string): (r: seq<Book>)
    ensures |r| == |books|
    ensures forall i :: 0 <= i < |books| && books[i].id == id ==> r[i] == FlipLike(books[i])
    ensures forall i :: 0 <= i < |books| && books[i].id != id ==> r[i] == books[i]
    decreases |books|
  {
    if books == [] then []
    else [if books[0].id == id then FlipLike(books[0]) else books[0]] + ToggleLike(books[1..], id)
  }

  /** Liking twice restores whether each book is liked (an undefined flag becomes `false`). */
  lemma ToggleLikeTwice(books: seq<Book>, id: string)
    ensures var r := ToggleLike(ToggleLike(books, id), id);
      |r| == |books| && forall i :: 0 <= i < |books| ==> Liked(r[i]) == Liked(books[i])
  {
  }

  /** The state after `handleToggleLike(book)`. */
  function ToggleLikeState(s: AppState, book: Book): (r: AppState)
    ensures |r.myBooks| == |s.myBooks|
    ensures r.myBooks == ToggleLike(s.myBooks, book.id)
    ensures r.(myBooks := s.myBooks) == s
  {
    s.(myBooks := ToggleLike(s.myBooks, book.id))
  }

  // ---------------------------------------------------------------------------
  // Sections of the home tab

  /** `books.filter(b => b.category === category)`. */
  function FilterCategory(books: seq<Book>, category: string): (r: seq<Book>)
    ensures |r| <= |books|
    ensures forall i :: 0 <= i < |r| ==> r[i].category == Some(category)
    decreases |books|
  {
    if books == [] then []
    else (if books[0].category == Some(category) then [books[0]] else []) + FilterCategory(books[1..], category)
  }

  /** Filtering distributes over concatenation, so it keeps the original order. */
  lemma {:induction false} FilterCategoryAppend(a: seq<Book>, b: seq<Book>, category: string)
    ensures FilterCategory(a + b, category) == FilterCategory(a, category) + FilterCategory(b, category)
    decreases |a|
  {
    if a == [] {
      assert a + b == b;
    } else {
      assert (a + b)[1..] == a[1..] + b;
      FilterCategoryAppend(a[1..], b, category);
    }
  }

  /** A book is in the filtered list exactly when it is in the library with that category. */
  lemma {:induction false} FilterCategoryMembers(books: seq<Book>, category: string, b: Book)
    ensures b in FilterCategory(books, category) <==> b in books && b.category == Some(category)
    decreases |books|
  {
    if books != [] {
      FilterCategoryMembers(books[1..], category, b);
      assert books == [books[0]] + books[1..];
    }
  }

  /** `filteredBooks`. */
  function FilteredBooks(s: AppState): (r: seq<Book>)
    ensures s.selectedCategory == AllCategories ==> r == s.myBooks
    ensures s.selectedCategory != AllCategories ==> r == FilterCategory(s.myBooks, s.selectedCategory)
  {
    if s.selectedCategory == AllCategories then s.myBooks
    else FilterCategory(s.myBooks, s.selectedCategory)
  }

  /** `myBooks[0]`, `None` where JavaScript would yield `undefined`. */
  function FeaturedBook(s: AppState): (r: Option<Book>)
    ensures r.Some? <==> |s.myBooks| > 0
    ensures r.Some? ==> r.value == s.myBooks[0]
  {
    if |s.myBooks| > 0 then Some(s.myBooks[0]) else None
  }

  /** `[...books].reverse()`: a reversed copy; the library itself is a value and stays as it is. */
  function Reversed(books: seq<Book>): (r: seq<Book>)
    ensures |r| == |books|
    ensures forall i :: 0 <= i < |books| ==> r[i] == books[|books| - 1 - i]
    decreases |books|
  {
    if books == [] then [] else Reversed(books[1..]) + [books[0]]
  }

  /** Reversing the copy twice gives back the library. */
  lemma ReversedTwice(books: seq<Book>)
    ensures Reversed(Reversed(books)) == books
  {
    assert forall i :: 0 <= i < |books| ==> Reversed(Reversed(books))[i] == books[i];
  }

  /** The "Mais lidos da semana" section. */
  function MostRead(s: AppState): (r: seq<Book>)
    ensures |r| == |s.myBooks|
    ensures |r| > 0 ==> r[0] == s.myBooks[|s.myBooks| - 1] && r[|r| - 1] == s.myBooks[0]
  {
    Reversed(s.myBooks)
  }

  // ---------------------------------------------------------------------------
  // Every event the shell handles

  datatype Action =
    | SaveBookAction(title: string, content: string, coverImage: Option<string>, idTime: nat, coverTime: nat)
    | ToggleLikeAction(book: Book)
    | ToggleThemeAction
    | ChangeTab(tab: NavTab)
    | SelectCategory(category: string)
    | ViewBook(viewing: Option<Book>)
    | ShowSettings(open: bool)

  function Apply(s: AppState, a: Action): (r: AppState)
    ensures |r.myBooks| >= |s.myBooks|
  {
    match a
    case SaveBookAction(title, content, cover, idTime, coverTime) => SaveBook(s, title, content, cover, idTime, coverTime)
    case ToggleLikeAction(book) => ToggleLikeState(s, book)
    case ToggleThemeAction => s.(theme := ToggleTheme(s.theme))
    case ChangeTab(tab) => s.(activeTab := tab)
    case SelectCategory(category) => s.(selectedCategory := category)
    case ViewBook(viewing) => s.(viewingBook := viewing)
    case ShowSettings(open) => s.(showSettings := open)
  }

  function Run(s: AppState, actions: seq<Action>): AppState
    decreases |actions|
  {
    if actions == [] then s else Run(Apply(s, actions[0]), actions[1..])
  }

  /** The library never shrinks along any sequence of events. */
  lemma {:induction false} RunKeepsBooks(s: AppState, actions: seq<Action>)
    ensures |Run(s, actions).myBooks| >= |s.myBooks|
    decreases |actions|
  {
    if actions != [] {
      RunKeepsBooks(Apply(s, actions[0]), actions[1..]);
    }
  }

  /** From start-up on, the library holds at least five books, so the featured book always exists. */
  lemma FeaturedBookAlwaysDefined(actions: seq<Action>)
    ensures |Run(InitialState(), actions).myBooks| >= 5
    ensures FeaturedBook(Run(InitialState(), actions)).Some?
  {
    RunKeepsBooks(InitialState(), actions);
  }
}

/**
  One blog card (src/components/blog/ArticleCard.tsx): the values it
  displays, each with its fallback, and the image's error handler.
 */
module ArticleCard {
  import opened Outcomes
  import opened Text
  import opened Articles

  /** The image used when an article has no thumbnail or its thumbnail fails to load. */
  const DefaultImageUrl := "https://images.pexels.com/photos/3760067/pexels-photo-3760067.jpeg?auto=compress&cs=tinysrgb&dpr=2&h=400"

  /** How many characters of the content the excerpt keeps. */
  const ExcerptLength := 150

  const NoContentMessage := "Tidak ada konten artikel yang tersedia."

  /** The footer date: the formatted `created` timestamp, or the unknown-date text. */
  datatype DateText = Formatted(millis: int) | UnknownDate

  datatype CardView = CardView(
    imageSrc: string,
    imageAlt: string,
    badge: string,
    title: string,
    excerpt: string,
    date: DateText)

  /** `s || fallback` for a string. */
  function Or(s: string, fallback: string): (r: string)
    ensures s != "" ==> r == s
    ensures s == "" ==> r == fallback
  {
    if s != "" then s else fallback
  }

  /** `s || fallback` for a value that may be null or missing. */
  function OptionOr(s: Option<string>, fallback: string): (r: string)
    ensures IsTruthy(s) ==> r == s.value
    ensures !IsTruthy(s) ==> r == fallback
  {
    if s.Some? && s.value != "" then s.value else fallback
  }

  /**
    The excerpt: for non-empty content, its first 150 characters followed
    by `...` (so at most 153 characters, the content itself when it is
    short enough); for empty content, a fixed message.
   */
  function Excerpt(content: string): (r: string)
    ensures content == "" ==> r == NoContentMessage
    ensures content != "" ==> 3 <= |r| <= ExcerptLength + 3 && r[|r| - 3..] == "..."
    ensures content != "" ==> StartsWith(content, r[..|r| - 3])
    ensures content != "" && |content| <= ExcerptLength ==> r == content + "..."
    ensures content != "" && |content| > ExcerptLength ==> |r| == ExcerptLength + 3
  {
    if content != "" then
      var kept := Take(content, ExcerptLength);
      assert (kept + "...")[..|kept|] == kept;
      assert |content| <= ExcerptLength ==> kept == content;
      kept + "..."
    else NoContentMessage
  }

  /**
    The card for an article, or nothing for a missing one: the thumbnail or
    the default image, the title or a fallback as alt text and as heading,
    the category or a fallback as badge, the excerpt, and the date only for
    a truthy `created`.
   */
  function Render(article: Option<Article>): (card: Option<CardView>)
    ensures card.None? <==> article.None?
    ensures card.Some? ==>
      var a := article.value;
      && card.value.imageSrc == OptionOr(a.thumbnail, DefaultImageUrl)
      && card.value.imageAlt == Or(a.title, "Gambar Artikel")
      && card.value.badge == OptionOr(a.categoryy, "Kategori Tidak Diketahui")
      && card.value.title == Or(a.title, "Judul Artikel Tidak Tersedia")
      && card.value.excerpt == Excerpt(a.content)
      && (card.value.date.Formatted? <==> a.created != 0)
      && (card.value.date.Formatted? ==> card.value.date.millis == a.created)
  {
    match article
    case None => None
    case Some(a) =>
      Some(CardView(
        OptionOr(a.thumbnail, DefaultImageUrl),
        Or(a.title, "Gambar Artikel"),
        OptionOr(a.categoryy, "Kategori Tidak Diketahui"),
        Or(a.title, "Judul Artikel Tidak Tersedia"),
        Excerpt(a.content),
        if a.created != 0 then Formatted(a.created) else UnknownDate))
  }

  /** The attributes of the card's `<img>` element that its error handler touches. */
  datatype ImageElement = ImageElement(src: string, alt: string)

  /**
    The `onError` rule: a failing image other than the default is replaced by
    the default, with the unavailable-image alt text; a failing default is left alone.
   */
  function AfterError(e: ImageElement): (r: ImageElement)
    ensures r.src == DefaultImageUrl
    ensures e.src == DefaultImageUrl ==> r == e
    ensures e.src != DefaultImageUrl ==> r.alt == "Gambar Artikel Tidak Tersedia"
  {
    if e.src != DefaultImageUrl then ImageElement(DefaultImageUrl, "Gambar Artikel Tidak Tersedia") else e
  }

  /** A second failure changes nothing: the handler never switches back and forth. */
  lemma AfterErrorIdempotent(e: ImageElement)
    ensures AfterError(AfterError(e)) == AfterError(e)
  {
  }

  /** The `<img>` element of a rendered card. */
  class CardImage {
    var element: ImageElement

    constructor(article: Article)
      ensures element.src == OptionOr(article.thumbnail, DefaultImageUrl)
      ensures element.alt == Or(article.title, "Gambar Artikel")
    {
      element := ImageElement(OptionOr(article.thumbnail, DefaultImageUrl), Or(article.title, "Gambar Artikel"));
    }

    method HandleError()
      modifies this
      ensures element == AfterError(old(element))
    {
      if element.src != DefaultImageUrl {
        element := element.(src := DefaultImageUrl);
        element := element.(alt := "Gambar Artikel Tidak Tersedia");
      }
    }
  }
}

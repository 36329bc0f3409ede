/**
  The dashboard's article table (src/components/dashboard/ArticleTable.tsx):
  which of its three branches renders, the rows it shows and what its Edit
  and Delete buttons hand to the page.
 */
module ArticleTable {
  import opened Outcomes
  import opened Articles

  /** One table row, keyed by `objectId`; `article` is what its Edit button passes to `onEdit`. */
  datatype Row = Row(key: string, article: Article, title: string, slug: string, status: string, created: int)

  datatype TableView = LoadingMessage | EmptyMessage | Rows(rows: seq<Row>)

  /** The status badge. */
  function StatusLabel(publish: bool): (status: string)
    ensures status == "Published" <==> publish
    ensures status == "Draft" <==> !publish
  {
    if publish then "Published" else "Draft"
  }

  function RowOf(a: Article): Row {
    Row(a.objectId, a, a.title, a.slug, StatusLabel(a.publish), a.created)
  }

  function RowsOf(articles: seq<Article>): (rows: seq<Row>)
    ensures |rows| == |articles|
    ensures forall i :: 0 <= i < |articles| ==> rows[i] == RowOf(articles[i])
  {
    if articles == [] then [] else [RowOf(articles[0])] + RowsOf(articles[1..])
  }

  /** The loading message wins over everything, then the empty message, then one row per article in order. */
  function Render(articles: seq<Article>, loading: bool): (v: TableView)
    ensures v == LoadingMessage <==> loading
    ensures v == EmptyMessage <==> !loading && |articles| == 0
    ensures v.Rows? ==> |v.rows| == |articles| > 0
    ensures v.Rows? ==> forall i :: 0 <= i < |articles| ==>
      && v.rows[i].article == articles[i]
      && v.rows[i].key == articles[i].objectId
      && v.rows[i].status == StatusLabel(articles[i].publish)
  {
    if loading then LoadingMessage
    else if |articles| == 0 then EmptyMessage
    else Rows(RowsOf(articles))
  }

  /** What a Delete click does: call `onDelete` with an id, or show an alert and call nothing. */
  datatype DeleteClick = CallOnDelete(id: string) | DeleteAlert(message: string)

  /** The alert shown for a row whose article has no `objectId`. */
  const MissingIdAlert := "Gagal menghapus: ID artikel tidak ditemukan."

  /** The Delete button: `onDelete(objectId)` only for a truthy `objectId`; otherwise the alert and no call. */
  function DeleteRequest(a: Article): (click: DeleteClick)
    ensures click.CallOnDelete? <==> a.objectId != ""
    ensures click.CallOnDelete? ==> click.id == a.objectId
    ensures click.DeleteAlert? ==> click.message == MissingIdAlert
  {
    if a.objectId != "" then CallOnDelete(a.objectId) else DeleteAlert(MissingIdAlert)
  }
}

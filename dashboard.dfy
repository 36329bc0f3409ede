/**
  The admin dashboard (src/app/dashboard/page.tsx): an in-memory copy of the
  article list kept in step with the remote store by the responses of its
  create, update and delete calls, plus the flags and the view selection
  that drive the page.

  Each asynchronous handler is split at its `await`: a `Begin` method runs
  the code before the call and returns the request it issues, and a
  `Settle` method runs the code after the call, given the call's outcome.
 */
module Dashboard {
  import opened Outcomes
  import opened Seqs
  import opened Articles
  import opened ArticleEditor
  import ArticleTable

  datatype View = TableView | FormView | DetailView

  /** The update body: the form data without `objectId`, which travels in the URL instead. */
  datatype ArticlePayload = ArticlePayload(
    title: string,
    content: string,
    thumbnail: string,
    categoryy: string,
    publish: bool,
    slug: string)

  /** The request a save issues: `createArticle(body)` or `updateArticle(id, payload)`. */
  datatype SaveCall = CreateCall(body: FormData) | UpdateCall(id: string, payload: ArticlePayload)

  /** `const { objectId, ...payloadForUpdate } = articleData`. */
  function PayloadOf(f: FormData): ArticlePayload {
    ArticlePayload(f.title, f.content, f.thumbnail, f.categoryy, f.publish, f.slug)
  }

  /** Puts an `objectId` back onto an update body. */
  function WithId(p: ArticlePayload, id: Option<string>): FormData {
    FormData(id, p.title, p.content, p.thumbnail, p.categoryy, p.publish, p.slug)
  }

  /**
    The save route: update exactly when the data carries a truthy `objectId`,
    which is then split off the body; create otherwise, with the data as it is.
   */
  function SaveRequest(data: FormData): (call: SaveCall)
    ensures call.UpdateCall? <==> IsTruthy(data.objectId)
    ensures call.UpdateCall? ==> data.objectId == Some(call.id) && WithId(call.payload, Some(call.id)) == data
    ensures call.CreateCall? ==> call.body == data && !IsTruthy(call.body.objectId)
  {
    if data.objectId.Some? && data.objectId.value != "" then
      UpdateCall(data.objectId.value, PayloadOf(data))
    else
      CreateCall(data)
  }

  /** `prev.map(art => art.objectId === rec.objectId ? rec : art)`. */
  function ReplaceById(list: seq<Article>, rec: Article): (r: seq<Article>)
    ensures |r| == |list|
    ensures forall i :: 0 <= i < |list| && list[i].objectId == rec.objectId ==> r[i] == rec
    ensures forall i :: 0 <= i < |list| && list[i].objectId != rec.objectId ==> r[i] == list[i]
  {
    if list == [] then []
    else [if list[0].objectId == rec.objectId then rec else list[0]] + ReplaceById(list[1..], rec)
  }

  /** `prev.filter(article => article.objectId !== id)`. */
  function RemoveById(list: seq<Article>, id: string): (r: seq<Article>)
    ensures |r| <= |list|
    ensures forall a :: a in r <==> a in list && a.objectId != id
  {
    Filter(list, OtherThan(id))
  }

  /** The filter's test: the entry's `objectId` differs from `id`. */
  function OtherThan(id: string): Article -> bool {
    (a: Article) => a.objectId != id
  }

  /** The list after a successful save, given the record the store returned. */
  function ApplySaved(list: seq<Article>, call: SaveCall, rec: Article): (r: seq<Article>)
    ensures call.UpdateCall? ==> |r| == |list| && forall i :: 0 <= i < |list| ==>
      r[i] == (if list[i].objectId == rec.objectId then rec else list[i])
    ensures call.UpdateCall? ==> Ids(r) == Ids(list)
    ensures call.UpdateCall? ==> (rec in r <==> rec.objectId in Ids(list))
    ensures call.CreateCall? ==> |r| == |list| + 1 && r[..|list|] == list && r[|list|] == rec
  {
    match call
    case UpdateCall(_, _) =>
      var r := ReplaceById(list, rec);
      ReplaceKeepsIds(list, rec);
      assert rec.objectId in Ids(list) ==> rec in r by {
        if rec.objectId in Ids(list) {
          var i :| 0 <= i < |list| && Ids(list)[i] == rec.objectId;
          assert r[i] == rec;
        }
      }
      assert rec in r ==> rec.objectId in Ids(list) by {
        if rec in r {
          var i :| 0 <= i < |r| && r[i] == rec;
          assert Ids(r)[i] == rec.objectId;
        }
      }
      r
    case CreateCall(_) => list + [rec]
  }

  // ---------------------------------------------------------------------------
  // Properties of the list updates

  /** An update never changes which ids the list holds, nor their order. */
  lemma ReplaceKeepsIds(list: seq<Article>, rec: Article)
    ensures Ids(ReplaceById(list, rec)) == Ids(list)
  {
  }

  /** A returned record whose id is not in the list leaves the list as it is. */
  lemma ReplaceAbsentIsNoop(list: seq<Article>, rec: Article)
    requires rec.objectId !in Ids(list)
    ensures ReplaceById(list, rec) == list
  {
    assert forall i :: 0 <= i < |list| ==> list[i].objectId == Ids(list)[i];
  }

  /** Applying the same returned record twice is applying it once. */
  lemma ReplaceIdempotent(list: seq<Article>, rec: Article)
    ensures ReplaceById(ReplaceById(list, rec), rec) == ReplaceById(list, rec)
  {
  }

  /** With unique ids, an update is a point update of the one entry with that id. */
  lemma ReplaceUniqueIsPointUpdate(list: seq<Article>, rec: Article, k: nat)
    requires UniqueIds(list) && k < |list| && list[k].objectId == rec.objectId
    ensures ReplaceById(list, rec) == list[k := rec]
  {
  }

  /** A delete removes every entry with the id and keeps every other one, in order, with its multiplicity. */
  lemma {:induction false} RemoveByIdSpec(list: seq<Article>, id: string, a: Article)
    ensures id !in Ids(RemoveById(list, id))
    ensures a in RemoveById(list, id) <==> a in list && a.objectId != id
    ensures multiset(RemoveById(list, id))[a] == if a.objectId == id then 0 else multiset(list)[a]
    ensures IsSubseq(RemoveById(list, id), list)
  {
    var r := RemoveById(list, id);
    forall i | 0 <= i < |r|
      ensures Ids(r)[i] != id
    {
      assert r[i] in r;
    }
    FilterCount(list, OtherThan(id), a);
    FilterIsSubseq(list, OtherThan(id));
  }

  /** With unique ids, deleting the id of entry `k` removes exactly that entry. */
  lemma RemoveUniqueIsSplice(list: seq<Article>, k: nat)
    requires UniqueIds(list) && k < |list|
    ensures RemoveById(list, list[k].objectId) == list[..k] + list[k + 1..]
  {
    var id := list[k].objectId;
    assert list == list[..k] + [list[k]] + list[k + 1..];
    RemoveSplice(list[..k], list[k], list[k + 1..], id);
  }

  /** Deleting `id` from `before + [x] + after`, where only `x` carries `id`, leaves `before + after`. */
  lemma RemoveSplice(before: seq<Article>, x: Article, after: seq<Article>, id: string)
    requires x.objectId == id
    requires forall i :: 0 <= i < |before| ==> before[i].objectId != id
    requires forall i :: 0 <= i < |after| ==> after[i].objectId != id
    ensures RemoveById(before + [x] + after, id) == before + after
  {
    var p := OtherThan(id);
    FilterAllKept(before, p);
    FilterAllKept(after, p);
    assert Filter([x], p) == [] by {
      assert !p(x);
      assert [x][1..] == [];
    }
    FilterAppend(before, [x], p);
    assert Filter(before + [x], p) == before;
    FilterAppend(before + [x], after, p);
  }

  /** Deleting a just-created record's id leaves what deleting it before the create would have left. */
  lemma CreateThenDelete(list: seq<Article>, rec: Article)
    ensures RemoveById(list + [rec], rec.objectId) == RemoveById(list, rec.objectId)
  {
    FilterAppend(list, [rec], OtherThan(rec.objectId));
  }

  /** Every save keeps the ids unique, provided a created record comes back with an id not yet listed. */
  lemma SaveKeepsUniqueIds(list: seq<Article>, call: SaveCall, rec: Article)
    requires UniqueIds(list)
    requires call.CreateCall? ==> rec.objectId !in Ids(list)
    ensures UniqueIds(ApplySaved(list, call, rec))
  {
    if call.UpdateCall? {
      ReplaceKeepsIds(list, rec);
      var r := ReplaceById(list, rec);
      forall i, j | 0 <= i < j < |r|
        ensures r[i].objectId != r[j].objectId
      {
        assert Ids(r)[i] == Ids(list)[i] && Ids(r)[j] == Ids(list)[j];
      }
    } else {
      var r := list + [rec];
      forall i, j | 0 <= i < j < |r|
        ensures r[i].objectId != r[j].objectId
      {
        if j == |list| {
          assert Ids(list)[i] == list[i].objectId;
        }
      }
    }
  }

  /** A delete keeps the ids unique. */
  lemma {:induction false} RemoveKeepsUniqueIds(list: seq<Article>, id: string)
    requires UniqueIds(list)
    ensures UniqueIds(RemoveById(list, id))
  {
    if list != [] {
      var rest := RemoveById(list[1..], id);
      RemoveKeepsUniqueIds(list[1..], id);
      if list[0].objectId != id {
        var r := [list[0]] + rest;
        assert RemoveById(list, id) == r;
        forall i, j | 0 <= i < j < |r|
          ensures r[i].objectId != r[j].objectId
        {
          if i == 0 {
            assert r[j] in list[1..];
            var k :| 0 <= k < |list[1..]| && list[1..][k] == r[j];
            assert list[k + 1] == r[j];
          }
        }
      } else {
        assert RemoveById(list, id) == rest;
      }
    }
  }

  /**
    Deleting from a rendered row: the row's Delete button requests the row's
    own id, and with unique ids a successful delete removes exactly that row.
   */
  lemma DeleteFromRowRemovesRow(list: seq<Article>, i: nat)
    requires UniqueIds(list) && i < |list| && list[i].objectId != ""
    ensures ArticleTable.Render(list, false).Rows?
    ensures ArticleTable.DeleteRequest(ArticleTable.Render(list, false).rows[i].article) == ArticleTable.CallOnDelete(list[i].objectId)
    ensures RemoveById(list, list[i].objectId) == list[..i] + list[i + 1..]
  {
    RemoveUniqueIsSplice(list, i);
  }

  /**
    Editing a listed article and submitting it unchanged issues an update of
    that article's id whose body carries the article's own field values.
   */
  lemma UnchangedEditUpdates(a: Article)
    requires a.objectId != ""
    ensures SaveRequest(FromArticle(Some(a))) ==
      UpdateCall(a.objectId, ArticlePayload(a.title, a.content, a.thumbnail.GetOr(""), a.categoryy.GetOr(""), a.publish, a.slug))
  {
  }

  /** An article whose `objectId` is the empty string is saved through the create route, as a new record. */
  lemma EmptyIdEditCreates(a: Article)
    requires a.objectId == ""
    ensures SaveRequest(FromArticle(Some(a))).CreateCall?
  {
  }

  /** What the page renders below its heading. */
  datatype Screen =
    | TableScreen(addButton: bool, table: ArticleTable.TableView)
    | FormScreen(article: Option<Article>, isLoading: bool)
    | BlankScreen

  /** The dashboard component: the cached list, the two flags and the view selection. */
  class DashboardPage {
    var articles: seq<Article>
    var loading: bool
    var submitting: bool
    var currentView: View
    var selectedArticle: Option<Article>

    /** The initial state: empty list, loading, not submitting, the table, nothing selected. */
    constructor()
      ensures articles == [] && loading && !submitting
      ensures currentView == TableView && selectedArticle == None
    {
      articles := [];
      loading := true;
      submitting := false;
      currentView := TableView;
      selectedArticle := None;
    }

    /** `loadArticles` up to its `await fetchArticles()`. */
    method BeginLoad()
      modifies this
      ensures loading
      ensures articles == old(articles) && submitting == old(submitting)
      ensures currentView == old(currentView) && selectedArticle == old(selectedArticle)
    {
      loading := true;
    }

    /** `loadArticles` after the fetch: adopt the list, or keep it and raise the failure alert; loading ends. */
    method SettleLoad(outcome: ApiResult<seq<Article>>) returns (alert: Option<string>)
      modifies this
      ensures outcome.Success? ==> articles == outcome.value && alert == None
      ensures outcome.Failure? ==> articles == old(articles) && alert == Some("Gagal memuat daftar artikel.")
      ensures !loading && submitting == old(submitting)
      ensures currentView == old(currentView) && selectedArticle == old(selectedArticle)
    {
      alert := None;
      match outcome {
        case Success(fetched) =>
          articles := fetched;
        case Failure(_) =>
          alert := Some("Gagal memuat daftar artikel.");
      }
      loading := false;
    }

    /** `handleSaveArticle` up to its `await`: submitting starts and the request is chosen. */
    method BeginSave(data: FormData) returns (call: SaveCall)
      modifies this
      ensures call == SaveRequest(data)
      ensures submitting
      ensures articles == old(articles) && loading == old(loading)
      ensures currentView == old(currentView) && selectedArticle == old(selectedArticle)
    {
      submitting := true;
      call := SaveRequest(data);
    }

    /**
      `handleSaveArticle` after the call: on success the returned record is
      merged into the list and the page goes back to an unselected table;
      on failure nothing but the flag changes. Submitting ends either way.
     */
    method SettleSave(call: SaveCall, outcome: ApiResult<Article>) returns (alert: string)
      modifies this
      ensures outcome.Success? ==>
        && articles == ApplySaved(old(articles), call, outcome.value)
        && currentView == TableView && selectedArticle == None
        && alert == (if call.UpdateCall? then "Artikel berhasil diperbarui!" else "Artikel berhasil ditambahkan!")
      ensures outcome.Failure? ==>
        && articles == old(articles)
        && currentView == old(currentView) && selectedArticle == old(selectedArticle)
        && alert == "Gagal menyimpan artikel: " + outcome.message
      ensures !submitting && loading == old(loading)
    {
      match outcome {
        case Success(rec) =>
          if call.UpdateCall? {
            articles := ReplaceById(articles, rec);
            alert := "Artikel berhasil diperbarui!";
          } else {
            articles := articles + [rec];
            alert := "Artikel berhasil ditambahkan!";
          }
          currentView := TableView;
          selectedArticle := None;
        case Failure(message) =>
          alert := "Gagal menyimpan artikel: " + message;
      }
      submitting := false;
    }

    /** `handleDeleteArticle` up to its `await`: a declined confirmation ends it with no change. */
    method BeginDelete(objectId: string, confirmed: bool) returns (call: Option<string>)
      modifies this
      ensures !confirmed ==> call == None && loading == old(loading)
      ensures confirmed ==> call == Some(objectId) && loading
      ensures articles == old(articles) && submitting == old(submitting)
      ensures currentView == old(currentView) && selectedArticle == old(selectedArticle)
    {
      if !confirmed {
        call := None;
        return;
      }
      loading := true;
      call := Some(objectId);
    }

    /** `handleDeleteArticle` after the call: on success every entry with the id goes; loading ends either way. */
    method SettleDelete(objectId: string, outcome: ApiResult<()>) returns (alert: string)
      modifies this
      ensures outcome.Success? ==> articles == RemoveById(old(articles), objectId) && alert == "Artikel berhasil dihapus!"
      ensures outcome.Failure? ==> articles == old(articles) && alert == "Gagal menghapus artikel: " + outcome.message
      ensures !loading && submitting == old(submitting)
      ensures currentView == old(currentView) && selectedArticle == old(selectedArticle)
    {
      match outcome {
        case Success(_) =>
          articles := RemoveById(articles, objectId);
          alert := "Artikel berhasil dihapus!";
        case Failure(message) =>
          alert := "Gagal menghapus artikel: " + message;
      }
      loading := false;
    }

    method HandleEditArticle(article: Article)
      modifies this
      ensures selectedArticle == Some(article) && currentView == FormView
      ensures articles == old(articles) && loading == old(loading) && submitting == old(submitting)
    {
      selectedArticle := Some(article);
      currentView := FormView;
    }

    method HandleBack()
      modifies this
      ensures selectedArticle == None && currentView == TableView
      ensures articles == old(articles) && loading == old(loading) && submitting == old(submitting)
    {
      currentView := TableView;
      selectedArticle := None;
    }

    method HandleAddArticle()
      modifies this
      ensures selectedArticle == None && currentView == FormView
      ensures articles == old(articles) && loading == old(loading) && submitting == old(submitting)
    {
      selectedArticle := None;
      currentView := FormView;
    }

    /**
      The page body: in the table view the add button and the table; in the
      form view the editor for the selected article, busy while submitting;
      the detail view renders nothing.
     */
    function Screen(): (s: Screen)
      reads this
      ensures s.TableScreen? <==> currentView == TableView
      ensures s.FormScreen? <==> currentView == FormView
      ensures s.TableScreen? ==> s.addButton && s.table == ArticleTable.Render(articles, loading)
      ensures s.FormScreen? ==> s.article == selectedArticle && s.isLoading == submitting
    {
      match currentView
      case TableView => TableScreen(true, ArticleTable.Render(articles, loading))
      case FormView => FormScreen(selectedArticle, submitting)
      case DetailView => BlankScreen
    }
  }
}

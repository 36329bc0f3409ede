/**
  The article record as the remote store returns it (the `Article` interface
  of src/lib/api.ts), with the store's own field spellings `categoryy` and
  `publish`.
 */
module Articles {
  import opened Outcomes

  /**
    `thumbnail` may be `null`, `categoryy` and `updated` may be missing;
    `created` and `updated` are millisecond timestamps assigned by the store.
   */
  datatype Article = Article(
    objectId: string,
    title: string,
    content: string,
    thumbnail: Option<string>,
    categoryy: Option<string>,
    publish: bool,
    slug: string,
    created: int,
    updated: Option<int>)

  /** The `objectId`s of a list, in list order. */
  function Ids(list: seq<Article>): (ids: seq<string>)
    ensures |ids| == |list|
    ensures forall i :: 0 <= i < |list| ==> ids[i] == list[i].objectId
  {
    if list == [] then [] else [list[0].objectId] + Ids(list[1..])
  }

  /** No two entries of the list share an `objectId`. */
  predicate UniqueIds(list: seq<Article>) {
    forall i, j :: 0 <= i < j < |list| ==> list[i].objectId != list[j].objectId
  }
}

/** The article list state of `useArticles`: a page cursor, the multi-tag fetch that
    merges several result pages and removes duplicate ids, and the removal done after a
    successful delete. The slug generator of the same composable is in module Slug. */
module Articles {
  import opened Seqs

  /** An article as the list keeps it; only `id` and `slug` matter to the list logic. */
  datatype Article = Article(
    id: string,
    title: string,
    slug: string,
    content: string,
    status: string,
    tagId: string,
    viewCount: int)

  /** The body of a GET /articles reply. */
  datatype ArticlePage = ArticlePage(items: seq<Article>, currentPage: int, totalPages: int)

  /** What one GET /articles call yields: a page, or a thrown error. */
  datatype PageReply = Delivered(page: ArticlePage) | Failed

  /** The messages the composable stores or throws, kept abstract. */
  datatype ArticleError = LoadFailed | DetailFailed | DeleteFailed

  // ---------------------------------------------------------------------------
  // Merging per-tag pages: `new Map(all.map(a => [a.id, a]))` then `.values()`
  // ---------------------------------------------------------------------------

  function Ids(s: seq<Article>): set<string>
  {
    set a | a in s :: a.id
  }

  predicate DistinctIds(s: seq<Article>)
  {
    forall i, j :: 0 <= i < j < |s| ==> s[i].id != s[j].id
  }

  /** Index of the first article of `s` with this id, or -1. */
  function IndexOfId(s: seq<Article>, id: string): (i: int)
    ensures -1 <= i < |s|
    ensures 0 <= i ==> s[i].id == id && forall j :: 0 <= j < i ==> s[j].id != id
    ensures i == -1 ==> forall j :: 0 <= j < |s| ==> s[j].id != id
  {
    FindIndex(s, (a: Article) => a.id == id)
  }

  /** An id is found exactly when it is one of the ids of `s`. */
  lemma IndexOfIdFound(s: seq<Article>, id: string)
    ensures IndexOfId(s, id) == -1 <==> id !in Ids(s)
  {
    if id in Ids(s) {
      var a :| a in s && a.id == id;
      var j :| 0 <= j < |s| && s[j] == a;
      assert s[j].id == id;
    }
  }

  /** Index of the last article of `s` with this id, or -1. */
  function LastIndexOfId(s: seq<Article>, id: string): (i: int)
    ensures -1 <= i < |s|
    ensures 0 <= i ==> s[i].id == id && forall j :: i < j < |s| ==> s[j].id != id
    ensures i == -1 ==> forall j :: 0 <= j < |s| ==> s[j].id != id
  {
    if s == [] then -1
    else if s[|s| - 1].id == id then |s| - 1
    else LastIndexOfId(s[..|s| - 1], id)
  }

  /** `map.set(a.id, a)` on a JavaScript Map whose values are listed in `acc`: an id
      already present keeps its position and takes the new article; a new id goes last. */
  function Upsert(acc: seq<Article>, a: Article): (r: seq<Article>)
    ensures |acc| <= |r| <= |acc| + 1
  {
    var k := IndexOfId(acc, a.id);
    if k == -1 then acc + [a] else acc[k := a]
  }

  lemma IdsAppend(s: seq<Article>, x: Article)
    ensures Ids(s + [x]) == Ids(s) + {x.id}
  {
    var t := s + [x];
    forall id | id in Ids(t) ensures id in Ids(s) + {x.id} {
      var a :| a in t && a.id == id;
      var j :| 0 <= j < |t| && t[j] == a;
      if j < |s| { assert s[j] == a; }
    }
    forall id | id in Ids(s) ensures id in Ids(t) {
      var a :| a in s && a.id == id;
      var j :| 0 <= j < |s| && s[j] == a;
      assert t[j] == a;
    }
    assert t[|s|] == x;
  }

  /** Replacing an article by one with the same id keeps the set of ids. */
  lemma IdsUpdate(s: seq<Article>, k: int, x: Article)
    requires 0 <= k < |s| && s[k].id == x.id
    ensures Ids(s[k := x]) == Ids(s)
  {
    var t := s[k := x];
    forall id | id in Ids(t) ensures id in Ids(s) {
      var a :| a in t && a.id == id;
      var j :| 0 <= j < |t| && t[j] == a;
      assert s[j].id == id;
    }
    forall id | id in Ids(s) ensures id in Ids(t) {
      var a :| a in s && a.id == id;
      var j :| 0 <= j < |s| && s[j] == a;
      assert t[j].id == id;
    }
  }

  /** After `map.set` the map holds exactly the old ids and the new one. */
  lemma UpsertIds(acc: seq<Article>, a: Article)
    ensures Ids(Upsert(acc, a)) == Ids(acc) + {a.id}
  {
    var k := IndexOfId(acc, a.id);
    if k == -1 {
      IdsAppend(acc, a);
    } else {
      IdsUpdate(acc, k, a);
    }
  }

  /** `map.set` with a new id appends the article. */
  lemma UpsertAppends(acc: seq<Article>, a: Article)
    requires a.id !in Ids(acc)
    ensures Upsert(acc, a) == acc + [a]
  {
  }

  /** `map.set` with an id already present replaces that entry in place, and only it. */
  lemma UpsertInPlace(acc: seq<Article>, a: Article)
    requires DistinctIds(acc) && a.id in Ids(acc)
    ensures |Upsert(acc, a)| == |acc|
    ensures forall j :: 0 <= j < |acc| ==> Upsert(acc, a)[j] == (if acc[j].id == a.id then a else acc[j])
  {
    var k := IndexOfId(acc, a.id);
    assert forall j :: 0 <= j < |acc| && j != k ==> acc[j].id != a.id;
  }

  /** The keys of a Map stay distinct under `map.set`. */
  lemma UpsertDistinct(acc: seq<Article>, a: Article)
    requires DistinctIds(acc)
    ensures DistinctIds(Upsert(acc, a))
  {
    if a.id in Ids(acc) {
      UpsertInPlace(acc, a);
    }
  }

  /** The merged list: every article of `s` inserted into a Map, in order. */
  function Dedupe(s: seq<Article>): (r: seq<Article>)
    ensures |r| <= |s|
    ensures s != [] ==> r != []
  {
    if s == [] then [] else Upsert(Dedupe(s[..|s| - 1]), s[|s| - 1])
  }

  lemma {:induction false} DedupeDistinct(s: seq<Article>)
    ensures DistinctIds(Dedupe(s))
  {
    if s != [] {
      DedupeDistinct(s[..|s| - 1]);
      UpsertDistinct(Dedupe(s[..|s| - 1]), s[|s| - 1]);
    }
  }

  lemma {:induction false} DedupeIds(s: seq<Article>)
    ensures Ids(Dedupe(s)) == Ids(s)
  {
    if s != [] {
      var init, x := s[..|s| - 1], s[|s| - 1];
      DedupeIds(init);
      UpsertIds(Dedupe(init), x);
      IdsAppend(init, x);
      assert s == init + [x];
    }
  }

  /** Every merged article is the LAST article of the input with its id. */
  lemma {:induction false} DedupeKeepsLast(s: seq<Article>)
    ensures forall j :: 0 <= j < |Dedupe(s)| ==>
      0 <= LastIndexOfId(s, Dedupe(s)[j].id) && Dedupe(s)[j] == s[LastIndexOfId(s, Dedupe(s)[j].id)]
  {
    if s != [] {
      var init, x := s[..|s| - 1], s[|s| - 1];
      DedupeKeepsLast(init);
      DedupeIds(init);
      DedupeDistinct(init);
      var d := Dedupe(init);
      var r := Upsert(d, x);
      assert Dedupe(s) == r;
      if x.id in Ids(d) {
        UpsertInPlace(d, x);
      } else {
        UpsertAppends(d, x);
      }
      forall j | 0 <= j < |r|
        ensures 0 <= LastIndexOfId(s, r[j].id) && r[j] == s[LastIndexOfId(s, r[j].id)]
      {
        if r[j].id != x.id {
          assert j < |d| && r[j] == d[j];
          assert LastIndexOfId(s, r[j].id) == LastIndexOfId(init, r[j].id);
        }
      }
    }
  }

  /** Appending an article leaves the first position of every id already present. */
  lemma IndexOfIdAppend(init: seq<Article>, x: Article, id: string)
    ensures id in Ids(init) ==> IndexOfId(init + [x], id) == IndexOfId(init, id)
    ensures id !in Ids(init) && id == x.id ==> IndexOfId(init + [x], id) == |init|
  {
    var s := init + [x];
    if id in Ids(init) {
      var k := IndexOfId(init, id);
      assert s[k] == init[k];
      assert forall j :: 0 <= j < k ==> s[j] == init[j];
    } else if id == x.id {
      assert forall j :: 0 <= j < |init| ==> s[j] == init[j];
      assert s[|init|].id == id;
    }
  }

  lemma IdInIds(s: seq<Article>, j: int)
    requires 0 <= j < |s|
    ensures s[j].id in Ids(s)
  {
    assert s[j] in s;
  }

  /** The ids of `r` appear in the order of their first occurrence in `s`. */
  predicate InFirstOrder(s: seq<Article>, r: seq<Article>)
  {
    forall i, j :: 0 <= i < j < |r| ==> IndexOfId(s, r[i].id) < IndexOfId(s, r[j].id)
  }

  /** `map.set` on a key already present keeps first-occurrence order. */
  lemma FirstOrderInPlace(init: seq<Article>, d: seq<Article>, x: Article)
    requires DistinctIds(d) && Ids(d) == Ids(init) && x.id in Ids(d)
    requires InFirstOrder(init, d)
    ensures InFirstOrder(init + [x], Upsert(d, x))
  {
    UpsertInPlace(d, x);
    var r := Upsert(d, x);
    forall i, j | 0 <= i < j < |r|
      ensures IndexOfId(init + [x], r[i].id) < IndexOfId(init + [x], r[j].id)
    {
      assert r[i].id == d[i].id && r[j].id == d[j].id;
      IdInIds(d, i);
      IdInIds(d, j);
      IndexOfIdAppend(init, x, d[i].id);
      IndexOfIdAppend(init, x, d[j].id);
    }
  }

  /** `map.set` on a new key keeps first-occurrence order. */
  lemma FirstOrderAppend(init: seq<Article>, d: seq<Article>, x: Article)
    requires Ids(d) == Ids(init) && x.id !in Ids(init)
    requires InFirstOrder(init, d)
    ensures InFirstOrder(init + [x], d + [x])
  {
    var r := d + [x];
    forall i, j | 0 <= i < j < |r|
      ensures IndexOfId(init + [x], r[i].id) < IndexOfId(init + [x], r[j].id)
    {
      assert r[i] == d[i];
      IdInIds(d, i);
      IndexOfIdAppend(init, x, d[i].id);
      if j < |d| {
        assert r[j] == d[j];
        IdInIds(d, j);
        IndexOfIdAppend(init, x, d[j].id);
      } else {
        IndexOfIdAppend(init, x, x.id);
      }
    }
  }

  /** One insertion keeps the merged list in first-occurrence order. */
  lemma FirstOrderStep(init: seq<Article>, x: Article)
    requires InFirstOrder(init, Dedupe(init))
    ensures InFirstOrder(init + [x], Upsert(Dedupe(init), x))
  {
    DedupeIds(init);
    DedupeDistinct(init);
    var d := Dedupe(init);
    if x.id in Ids(init) {
      FirstOrderInPlace(init, d, x);
    } else {
      UpsertAppends(d, x);
      FirstOrderAppend(init, d, x);
    }
  }

  /** The merged articles are ordered by the first position of their id in the input. */
  lemma {:induction false} DedupeFirstOrder(s: seq<Article>)
    ensures InFirstOrder(s, Dedupe(s))
  {
    if s != [] {
      var init, x := s[..|s| - 1], s[|s| - 1];
      DedupeFirstOrder(init);
      FirstOrderStep(init, x);
      assert s == init + [x];
    }
  }

  // ---------------------------------------------------------------------------
  // The list state
  // ---------------------------------------------------------------------------

  /** Concatenation of the items of delivered replies, in reply order. */
  function AllItems(replies: seq<PageReply>): seq<Article>
  {
    if replies == [] then []
    else
      var last := replies[|replies| - 1];
      AllItems(replies[..|replies| - 1]) + (if last.Delivered? then last.page.items else [])
  }

  /** Index of the first reply that failed, or -1 when every call delivered. */
  function FirstFailure(replies: seq<PageReply>): int
  {
    FindIndex(replies, (r: PageReply) => r.Failed?)
  }

  /** `articles.filter(t => t.slug !== slug)`. */
  function WithoutSlug(s: seq<Article>, slug: string): (r: seq<Article>)
    ensures |r| <= |s|
    ensures forall i :: 0 <= i < |r| ==> r[i].slug != slug
  {
    Filter(s, (a: Article) => a.slug != slug)
  }

  /** Removal by slug drops exactly the articles carrying that slug. */
  lemma WithoutSlugExact(s: seq<Article>, slug: string)
    ensures forall a :: a in WithoutSlug(s, slug) <==> a in s && a.slug != slug
  {
    var r := WithoutSlug(s, slug);
    forall a | a in s && a.slug != slug ensures a in r {
      var j :| 0 <= j < |s| && s[j] == a;
    }
    forall a | a in r ensures a in s && a.slug != slug {
      var j :| 0 <= j < |r| && r[j] == a;
    }
  }

  /** The articles left after removal keep their relative order. */
  lemma WithoutSlugKeepsOrder(a: seq<Article>, b: seq<Article>, slug: string)
    ensures WithoutSlug(a + b, slug) == WithoutSlug(a, slug) + WithoutSlug(b, slug)
  {
    FilterAppend(a, b, (x: Article) => x.slug != slug);
  }

  /** The refs returned by `useArticles()`. */
  class ArticleList {
    var articles: seq<Article>
    var loading: bool
    var error: Option<ArticleError>
    var currentPage: int
    var totalPages: int
    var totalItems: int
    var itemsPerPage: int

    constructor ()
      ensures articles == [] && !loading && error == None
      ensures currentPage == 1 && totalPages == 1 && totalItems == 0 && itemsPerPage == 10
    {
      articles := [];
      loading := false;
      error := None;
      currentPage := 1;
      totalPages := 1;
      totalItems := 0;
      itemsPerPage := 10;
    }

    /** The cursor invariant the three moves preserve. */
    predicate CursorInRange()
      reads this
    {
      1 <= currentPage <= totalPages
    }

    method NextPage() returns (moved: bool)
      modifies this`currentPage
      ensures moved <==> old(currentPage) < totalPages
      ensures currentPage == if moved then old(currentPage) + 1 else old(currentPage)
      ensures old(CursorInRange()) ==> CursorInRange()
    {
      if currentPage < totalPages {
        currentPage := currentPage + 1;
        return true;
      }
      return false;
    }

    method PrevPage() returns (moved: bool)
      modifies this`currentPage
      ensures moved <==> old(currentPage) > 1
      ensures currentPage == if moved then old(currentPage) - 1 else old(currentPage)
      ensures old(CursorInRange()) ==> CursorInRange()
    {
      if currentPage > 1 {
        currentPage := currentPage - 1;
        return true;
      }
      return false;
    }

    method GoToPage(page: int) returns (moved: bool)
      modifies this`currentPage
      ensures moved <==> 1 <= page <= totalPages
      ensures currentPage == if moved then page else old(currentPage)
      ensures old(CursorInRange()) ==> CursorInRange()
    {
      if page >= 1 && page <= totalPages {
        currentPage := page;
        return true;
      }
      return false;
    }

    /** `fetchArticles(tags, page, limit)`. With tags, one GET per tag, answered by
        `replies[i]`; without tags, a single GET answered by `replies[0]`. A thrown
        call ends the loop: the pagination refs keep what the earlier replies wrote,
        the list is left alone and `error` is set. */
    method FetchArticles(tags: seq<string>, page: int, limit: int, replies: seq<PageReply>)
      requires |replies| == if tags == [] then 1 else |tags|
      modifies this
      ensures !loading && itemsPerPage == limit
      ensures var k := FirstFailure(replies);
        if k == -1 then
          && error == None
          && articles == (if tags == [] then replies[0].page.items else Dedupe(AllItems(replies)))
          && currentPage == replies[|replies| - 1].page.currentPage
          && totalPages == replies[|replies| - 1].page.totalPages
          && totalItems == 0
        else
          && error == Some(LoadFailed)
          && articles == old(articles)
          && currentPage == (if k == 0 then page else replies[k - 1].page.currentPage)
          && totalPages == (if k == 0 then old(totalPages) else replies[k - 1].page.totalPages)
          && totalItems == (if k == 0 then old(totalItems) else 0)
    {
      loading := true;
      error := None;
      currentPage := page;
      itemsPerPage := limit;
      var all: seq<Article> := [];
      var failed := false;
      if tags != [] {
        var i := 0;
        while i < |tags|
          invariant 0 <= i <= |tags|
          invariant forall j :: 0 <= j < i ==> replies[j].Delivered?
          invariant !failed
          invariant all == AllItems(replies[..i])
          invariant currentPage == (if i == 0 then page else replies[i - 1].page.currentPage)
          invariant totalPages == (if i == 0 then old(totalPages) else replies[i - 1].page.totalPages)
          invariant totalItems == (if i == 0 then old(totalItems) else 0)
          invariant articles == old(articles) && error == None && itemsPerPage == limit
        {
          if replies[i].Failed? {
            failed := true;
            break;
          }
          var response := replies[i].page;
          assert replies[..i + 1][..i] == replies[..i];
          all := all + response.items;
          totalItems := 0;
          totalPages := response.totalPages;
          currentPage := response.currentPage;
          i := i + 1;
        }
        assert !failed ==> replies[..i] == replies;
        if !failed {
          all := Dedupe(all);
        }
      } else {
        if replies[0].Failed? {
          failed := true;
        } else {
          var response := replies[0].page;
          all := response.items;
          totalPages := response.totalPages;
          totalItems := 0;
          currentPage := response.currentPage;
        }
      }
      if failed {
        error := Some(LoadFailed);
      } else {
        articles := all;
      }
      loading := false;
    }

    /** `getArticleBySlug(slug)`; `reply` is what GET /articles/{slug} delivered, `None`
        when the call threw. The error is reset before the call and set again when it
        fails; the failure is swallowed and yields `null`. The list and the page refs are
        not touched, but an earlier error is cleared. */
    method GetArticleBySlug(reply: Option<Article>) returns (found: Option<Article>)
      modifies this`loading, this`error
      ensures found == reply
      ensures error == (if reply.None? then Some(DetailFailed) else None)
      ensures !loading
    {
      loading := true;
      error := None;
      if reply.None? {
        error := Some(DetailFailed);
        found := None;
      } else {
        found := reply;
      }
      loading := false;
    }

    /** `deleteArticle(slug)`; `accepted` is whether the DELETE call succeeded. On
        failure the list is unchanged and a generic error is thrown. */
    method DeleteArticle(slug: string, accepted: bool) returns (thrown: Option<ArticleError>)
      modifies this`articles
      ensures accepted ==> thrown == None && articles == WithoutSlug(old(articles), slug)
      ensures !accepted ==> thrown == Some(DeleteFailed) && articles == old(articles)
    {
      if !accepted {
        return Some(DeleteFailed);
      }
      articles := WithoutSlug(articles, slug);
      return None;
    }
  }
}

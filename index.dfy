/**
 * A user's article index: the ordered projections stored under
 * `user_articles:<userId>`, and the invariants the store keeps on it.
 */
module ArticleIndex {
  import opened Wrappers
  import opened Constants
  import opened Records

  /** `getUserArticles`: a user who has no index reads as having an empty one. */
  function IndexOf(indexes: map<UserId, seq<IndexEntry>>, u: UserId): seq<IndexEntry> {
    if u in indexes then indexes[u] else []
  }

  /** `index.some(a => a.url === url)`. */
  predicate HasUrl(index: seq<IndexEntry>, url: Option<string>)
    ensures HasUrl(index, url) <==> exists e :: e in index && e.url == url
  {
    exists i :: 0 <= i < |index| && index[i].url == url
  }

  predicate DistinctUrls(index: seq<IndexEntry>) {
    forall i, j :: 0 <= i < j < |index| ==> index[i].url != index[j].url
  }

  /** The two invariants of every index: capacity and URL uniqueness. */
  predicate IndexOk(index: seq<IndexEntry>) {
    |index| <= MAX_ARTICLES_PER_USER && DistinctUrls(index)
  }

  /** Appending an entry with a new URL to an index below capacity keeps it valid. */
  lemma AppendKeepsIndexOk(index: seq<IndexEntry>, e: IndexEntry)
    requires IndexOk(index)
    requires |index| < MAX_ARTICLES_PER_USER
    requires !HasUrl(index, e.url)
    ensures IndexOk(index + [e])
  {
    var r := index + [e];
    forall i, j | 0 <= i < j < |r| ensures r[i].url != r[j].url {
      if j == |index| {
        assert r[i] == index[i];
      }
    }
  }

  /** `index.filter(a => a.id !== id)`: every entry with that id goes, the others stay in order. */
  function RemoveId(index: seq<IndexEntry>, id: ArticleId): (r: seq<IndexEntry>)
    ensures |r| <= |index|
    ensures forall i :: 0 <= i < |r| ==> r[i].id != id && r[i] in index
    ensures forall e :: e in index && e.id != id ==> e in r
  {
    if index == [] then []
    else if index[0].id == id then RemoveId(index[1..], id)
    else [index[0]] + RemoveId(index[1..], id)
  }

  /**
   * The filter works entry by entry: it keeps the order of the entries it
   * keeps and each one's number of occurrences.
   */
  lemma {:induction false} RemoveIdAppend(a: seq<IndexEntry>, b: seq<IndexEntry>, id: ArticleId)
    ensures RemoveId(a + b, id) == RemoveId(a, id) + RemoveId(b, id)
  {
    if a == [] {
      assert a + b == b;
    } else {
      assert (a + b)[1..] == a[1..] + b;
      RemoveIdAppend(a[1..], b, id);
    }
  }

  /** Removing entries keeps the index valid. */
  lemma {:induction false} RemoveIdKeepsIndexOk(index: seq<IndexEntry>, id: ArticleId)
    requires IndexOk(index)
    ensures IndexOk(RemoveId(index, id))
  {
    RemoveIdKeepsDistinct(index, id);
  }

  lemma {:induction false} RemoveIdKeepsDistinct(index: seq<IndexEntry>, id: ArticleId)
    requires DistinctUrls(index)
    ensures DistinctUrls(RemoveId(index, id))
  {
    if index != [] {
      var tail := index[1..];
      DistinctTail(index);
      RemoveIdKeepsDistinct(tail, id);
      if index[0].id != id {
        var rest := RemoveId(tail, id);
        forall e | e in rest ensures e.url != index[0].url {
          var k :| 0 <= k < |tail| && tail[k] == e;
          assert index[k + 1] == e;
        }
        DistinctCons(index[0], rest);
      }
    }
  }

  /** Dropping the first entry keeps the URLs distinct. */
  lemma DistinctTail(index: seq<IndexEntry>)
    requires index != [] && DistinctUrls(index)
    ensures DistinctUrls(index[1..])
  {
    var tail := index[1..];
    forall i, j | 0 <= i < j < |tail| ensures tail[i].url != tail[j].url {
      assert tail[i] == index[i + 1] && tail[j] == index[j + 1];
    }
  }

  /** An entry whose URL no entry of `rest` has can go in front of it. */
  lemma DistinctCons(e: IndexEntry, rest: seq<IndexEntry>)
    requires DistinctUrls(rest)
    requires forall x :: x in rest ==> x.url != e.url
    ensures DistinctUrls([e] + rest)
  {
    var r := [e] + rest;
    forall i, j | 0 <= i < j < |r| ensures r[i].url != r[j].url {
      assert r[j] == rest[j - 1];
      if i > 0 {
        assert r[i] == rest[i - 1];
      }
    }
  }

  /** Removing an id no entry has leaves the index as it was. */
  lemma {:induction false} RemoveAbsentId(index: seq<IndexEntry>, id: ArticleId)
    requires forall i :: 0 <= i < |index| ==> index[i].id != id
    ensures RemoveId(index, id) == index
  {
    if index != [] {
      RemoveAbsentId(index[1..], id);
    }
  }
}

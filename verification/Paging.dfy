/** Paging: findAll of src/Infrastructure/Repository/MongoBaseRepository.ts over a fixed ordered collection. */
module Paging {
  import opened Options

  function Min(a: int, b: int): int { if a < b then a else b }

  /** The driver's skip and limit; a limit of 0 is no limit. */
  function Slice<T>(docs: seq<T>, skip: nat, limit: nat): seq<T> {
    var rest := docs[Min(skip, |docs|)..];
    if limit == 0 then rest else rest[..Min(limit, |rest|)]
  }

  datatype Found<T> = Found(data: seq<T>, page: nat, pageSize: nat, total: nat)

  /** A page of 0 counts as none asked for. */
  function FindAll<T>(docs: seq<T>, page: Option<nat>, pageSize: nat): Found<T> {
    if page.Some? && page.value != 0
    then Found(Slice(docs, (page.value - 1) * pageSize, pageSize), page.value, pageSize, |docs|)
    else Found(docs, 1, |docs|, |docs|)
  }

  function Pages<T>(docs: seq<T>, pageSize: nat, n: nat): seq<T> {
    if n == 0 then [] else Pages(docs, pageSize, n - 1) + FindAll(docs, Some(n), pageSize).data
  }

  lemma Times(n: nat, size: nat)
    requires n > 0
    ensures n * size == (n - 1) * size + size && (n - 1) * size >= 0
  {
  }

  /** A page is what lies between its skip and the next one's. */
  lemma PageIs<T>(docs: seq<T>, pageSize: nat, n: nat, skip: nat)
    requires pageSize > 0 && n > 0 && skip == (n - 1) * pageSize
    ensures FindAll(docs, Some(n), pageSize).data == docs[Min(skip, |docs|)..Min(skip + pageSize, |docs|)]
  {
  }

  /** The first n pages are the first n * pageSize documents, in order. */
  lemma {:induction false} PagesArePrefix<T>(docs: seq<T>, pageSize: nat, n: nat)
    requires pageSize > 0
    ensures n * pageSize >= 0 && Pages(docs, pageSize, n) == docs[..Min(n * pageSize, |docs|)]
  {
    if n > 0 {
      PagesArePrefix(docs, pageSize, n - 1);
      Times(n, pageSize);
      var skip := (n - 1) * pageSize;
      PageIs(docs, pageSize, n, skip);
      assert docs[..Min(skip, |docs|)] + docs[Min(skip, |docs|)..Min(skip + pageSize, |docs|)]
          == docs[..Min(skip + pageSize, |docs|)];
    }
  }

  /** Without a page, or with page 0, everything is one page; and a page size of 0 limits nothing. */
  lemma EverythingOnOnePage<T>(docs: seq<T>, page: nat, pageSize: nat)
    ensures FindAll(docs, None, pageSize) == FindAll(docs, Some(0), pageSize) == Found(docs, 1, |docs|, |docs|)
    ensures page > 0 ==> FindAll(docs, Some(page), 0) == Found(docs, page, 0, |docs|)
  {
  }

  /** Page n is the n-th run of `pageSize` documents, the last one cut short. */
  lemma PageHolds<T>(docs: seq<T>, page: nat, pageSize: nat, i: nat)
    requires page > 0 && pageSize > 0
    ensures
      var found, skip := FindAll(docs, Some(page), pageSize), (page - 1) * pageSize;
      && found.page == page && found.pageSize == pageSize && found.total == |docs|
      && skip >= 0 && (i < |found.data| <==> i < pageSize && skip + i < |docs|)
      && (i < |found.data| ==> found.data[i] == docs[skip + i])
  {
    Times(page, pageSize);
  }

  /**
   * Pages partition the collection: any n of them that reach the total concatenate to all documents, nothing skipped
   * and nothing repeated, and exactly the pages past the total are empty.
   */
  lemma PagesPartition<T>(docs: seq<T>, pageSize: nat, n: nat)
    requires pageSize > 0
    ensures n * pageSize >= |docs| ==> Pages(docs, pageSize, n) == docs
    ensures FindAll(docs, Some(n + 1), pageSize).data == [] <==> n * pageSize >= |docs|
  {
    PagesArePrefix(docs, pageSize, n);
  }
}

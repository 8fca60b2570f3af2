/** Following a paginated listing to its end.

    The store answers a listing request with a first page and every
    `listNextBatchOfObjects` call with the next one; the sequence `pages`
    holds those answers in request order. A page that is answered and
    truncated sends the facade on to the next request; the first page that is
    not truncated, or the first request the service refuses, ends it. */
module Listing {
  import opened Outcomes
  import opened S3Store
  import opened Wagon

  /** The facade asks for another page after this answer. */
  predicate Continues(a: Answer<Page>) {
    a.Answered? && a.value.truncated
  }

  /** The store eventually ends the listing within the answers given. */
  ghost predicate ListingEnds(pages: seq<Answer<Page>>) {
    exists i :: 0 <= i < |pages| && !Continues(pages[i])
  }

  /** The keys of the answered pages, page after page, in order within each page. */
  function KeysOf(pages: seq<Answer<Page>>): seq<Key> {
    if |pages| == 0 then []
    else (if pages[0].Answered? then pages[0].value.keys else []) + KeysOf(pages[1..])
  }

  /** The number of keys on the answered pages. */
  function PageSizes(pages: seq<Answer<Page>>): nat {
    if |pages| == 0 then 0
    else (if pages[0].Answered? then |pages[0].value.keys| else 0) + PageSizes(pages[1..])
  }

  lemma ListingEndsAfterContinue(pages: seq<Answer<Page>>)
    requires ListingEnds(pages)
    requires Continues(pages[0])
    ensures ListingEnds(pages[1..])
  {
    var i :| 0 <= i < |pages| && !Continues(pages[i]);
    assert pages[1..][i - 1] == pages[i];
  }

  /** The index of the answer that ends the listing. */
  ghost function LastRequest(pages: seq<Answer<Page>>): (k: nat)
    requires ListingEnds(pages)
    ensures k < |pages| && !Continues(pages[k])
    ensures forall j :: 0 <= j < k ==> Continues(pages[j])
    decreases |pages|
  {
    if !Continues(pages[0]) then 0
    else
      ListingEndsAfterContinue(pages);
      var k := LastRequest(pages[1..]);
      assert forall j :: 1 <= j <= k ==> pages[j] == pages[1..][j - 1];
      1 + k
  }

  /** What listing promises: the keys of every page up to and including the
      last one, or the exception of the refused request. */
  ghost function ListingOutcome(pages: seq<Answer<Page>>): Result<seq<Key>, WagonError>
    requires ListingEnds(pages)
  {
    var k := LastRequest(pages);
    match pages[k]
    case Answered(_) => Success(KeysOf(pages[..k + 1]))
    case Refused(m) => Failure(StoreException(m))
  }

  /** The source's `totalObjects` as written: one recursive call per
      truncated page. `TotalObjects` below is the loop that replaces it. */
  function TotalObjectsRecursive(pages: seq<Answer<Page>>): (r: Result<seq<Key>, WagonError>)
    requires ListingEnds(pages)
    ensures r.Failure? ==> r.error.StoreException?
    ensures r.Success? ==> pages[0].Answered? && pages[0].value.keys <= r.value
    ensures r.Success? ==> |r.value| >= |pages[0].value.keys|
    decreases |pages|
  {
    match pages[0]
    case Refused(m) => Failure(StoreException(m))
    case Answered(page) =>
      if !page.truncated then Success(page.keys)
      else
        ListingEndsAfterContinue(pages);
        match TotalObjectsRecursive(pages[1..])
        case Success(rest) => Success(page.keys + rest)
        case Failure(e) => Failure(e)
  }

  lemma KeysOfOne(a: Answer<Page>)
    ensures KeysOf([a]) == if a.Answered? then a.value.keys else []
  {
    assert [a][1..] == [];
  }

  lemma {:induction false} KeysOfAppend(a: seq<Answer<Page>>, b: seq<Answer<Page>>)
    ensures KeysOf(a + b) == KeysOf(a) + KeysOf(b)
    decreases |a|
  {
    if |a| > 0 {
      assert (a + b)[1..] == a[1..] + b;
      KeysOfAppend(a[1..], b);
    } else {
      assert a + b == b;
    }
  }

  /** The flattened listing is as long as all its pages together. */
  lemma {:induction false} KeysOfLength(pages: seq<Answer<Page>>)
    ensures |KeysOf(pages)| == PageSizes(pages)
    decreases |pages|
  {
    if |pages| > 0 {
      KeysOfLength(pages[1..]);
    }
  }

  /** A key is listed iff some answered page carries it. */
  lemma {:induction false} KeysOfMembership(pages: seq<Answer<Page>>, key: Key)
    ensures key in KeysOf(pages) <==>
      exists j :: 0 <= j < |pages| && pages[j].Answered? && key in pages[j].value.keys
    decreases |pages|
  {
    if |pages| > 0 {
      KeysOfMembership(pages[1..], key);
      if key in KeysOf(pages[1..]) {
        var j :| 0 <= j < |pages[1..]| && pages[1..][j].Answered? && key in pages[1..][j].value.keys;
        assert pages[j + 1] == pages[1..][j];
      }
      forall j | 1 <= j < |pages| && pages[j].Answered? && key in pages[j].value.keys
        ensures key in KeysOf(pages[1..])
      {
        assert pages[1..][j - 1] == pages[j];
      }
    }
  }

  /** The source's recursion computes exactly the promised outcome. */
  lemma {:induction false} TotalObjectsRecursiveIsListingOutcome(pages: seq<Answer<Page>>)
    requires ListingEnds(pages)
    ensures TotalObjectsRecursive(pages) == ListingOutcome(pages)
    decreases |pages|
  {
    if Continues(pages[0]) {
      ListingEndsAfterContinue(pages);
      TotalObjectsRecursiveIsListingOutcome(pages[1..]);
      var k := LastRequest(pages[1..]);
      assert LastRequest(pages) == k + 1;
      assert pages[..k + 2] == [pages[0]] + pages[1..][..k + 1];
      KeysOfAppend([pages[0]], pages[1..][..k + 1]);
    } else {
      assert LastRequest(pages) == 0;
      assert pages[..1] == [pages[0]];
      KeysOfOne(pages[0]);
    }
  }

  /** `totalObjects` as a loop: the accumulator holds the keys of the pages
      consumed so far, so no call-stack grows with the number of pages. */
  method TotalObjects(pages: seq<Answer<Page>>) returns (r: Result<seq<Key>, WagonError>)
    requires ListingEnds(pages)
    ensures r == ListingOutcome(pages)
    ensures r == TotalObjectsRecursive(pages)
  {
    ghost var k := LastRequest(pages);
    var objects: seq<Key> := [];
    var i := 0;
    while Continues(pages[i])
      invariant 0 <= i <= k
      invariant objects == KeysOf(pages[..i])
      decreases k - i
    {
      assert pages[..i + 1] == pages[..i] + [pages[i]];
      KeysOfAppend(pages[..i], [pages[i]]);
      KeysOfOne(pages[i]);
      objects := objects + pages[i].value.keys;
      i := i + 1;
    }
    assert i == k;
    TotalObjectsRecursiveIsListingOutcome(pages);
    match pages[i]
    case Refused(m) =>
      r := Failure(StoreException(m));
    case Answered(page) =>
      assert pages[..i + 1] == pages[..i] + [pages[i]];
      KeysOfAppend(pages[..i], [pages[i]]);
      KeysOfOne(pages[i]);
      r := Success(objects + page.keys);
  }

  /** On success the listing holds exactly as many keys as its pages together. */
  lemma ListingLength(pages: seq<Answer<Page>>)
    requires ListingEnds(pages)
    requires ListingOutcome(pages).Success?
    ensures |ListingOutcome(pages).value| == PageSizes(pages[..LastRequest(pages) + 1])
  {
    KeysOfLength(pages[..LastRequest(pages) + 1]);
  }

  /** Three pages of two keys each, the first two truncated, list as six
      keys in page order. */
  lemma ThreeBatchesOfTwo()
    ensures
      var pages := [Answered(Page(["a", "b"], true)), Answered(Page(["c", "d"], true)),
                    Answered(Page(["e", "f"], false))];
      ListingEnds(pages) && TotalObjectsRecursive(pages) == Success(["a", "b", "c", "d", "e", "f"])
  {
    var pages := [Answered(Page(["a", "b"], true)), Answered(Page(["c", "d"], true)),
                  Answered(Page(["e", "f"], false))];
    var tail := pages[1..];
    var last := tail[1..];
    assert last == [pages[2]] && !Continues(last[0]);
    assert TotalObjectsRecursive(last) == Success(["e", "f"]);
    assert !Continues(tail[1]);
    assert TotalObjectsRecursive(tail) == Success(["c", "d"] + ["e", "f"]);
    assert !Continues(pages[2]);
    assert TotalObjectsRecursive(pages) == Success(["a", "b"] + (["c", "d"] + ["e", "f"]));
    assert ["a", "b"] + (["c", "d"] + ["e", "f"]) == ["a", "b", "c", "d", "e", "f"];
  }
}

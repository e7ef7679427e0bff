/** Choosing among OCR candidates: `all_texts.sort(key=lambda x: len(x[1]),
    reverse=True)` followed by `all_texts[0]`. Python's sort is stable, also with
    `reverse=True`, so among candidates of equal length the earliest stays first. */
module Ranking {

  /** One recognition result kept for comparison: the strategy name and its
      stripped text. */
  datatype Candidate = Candidate(strategy: string, text: string)

  /** `cs` is ordered by non-increasing text length. */
  predicate LongestFirst(cs: seq<Candidate>) {
    forall i, j :: 0 <= i < j < |cs| ==> |cs[j].text| <= |cs[i].text|
  }

  /** Index `k` holds a longest text and every earlier text is strictly shorter. */
  predicate IsEarliestLongest(cs: seq<Candidate>, k: int) {
    && 0 <= k < |cs|
    && (forall j :: 0 <= j < |cs| ==> |cs[j].text| <= |cs[k].text|)
    && (forall j :: 0 <= j < k ==> |cs[j].text| < |cs[k].text|)
  }

  /** Places `c` before the first element that is no longer than it. */
  function Insert(c: Candidate, sorted: seq<Candidate>): seq<Candidate> {
    if sorted == [] || |sorted[0].text| <= |c.text| then [c] + sorted
    else [sorted[0]] + Insert(c, sorted[1..])
  }

  /** The stable sort by descending text length. */
  function SortByLength(cs: seq<Candidate>): seq<Candidate> {
    if cs == [] then [] else Insert(cs[0], SortByLength(cs[1..]))
  }

  /** No text in `cs` is longer than `n`. */
  predicate AllWithin(cs: seq<Candidate>, n: nat) {
    forall j :: 0 <= j < |cs| ==> |cs[j].text| <= n
  }

  /** Inserting a candidate no longer than `n` into candidates no longer than `n`. */
  lemma {:induction false} InsertWithin(c: Candidate, sorted: seq<Candidate>, n: nat)
    requires |c.text| <= n && AllWithin(sorted, n)
    ensures AllWithin(Insert(c, sorted), n)
  {
    if sorted != [] && |sorted[0].text| > |c.text| {
      assert AllWithin(sorted[1..], n) by {
        forall j | 0 <= j < |sorted[1..]| ensures |sorted[1..][j].text| <= n {
          assert sorted[1..][j] == sorted[j + 1];
        }
      }
      InsertWithin(c, sorted[1..], n);
    }
  }

  /** Insertion adds exactly `c`. */
  lemma {:induction false} InsertPermutes(c: Candidate, sorted: seq<Candidate>)
    ensures multiset(Insert(c, sorted)) == multiset(sorted) + multiset{c}
  {
    if sorted != [] && |sorted[0].text| > |c.text| {
      InsertPermutes(c, sorted[1..]);
      assert sorted == [sorted[0]] + sorted[1..];
    }
  }

  /** Insertion keeps a longest-first list longest first. */
  lemma {:induction false} InsertKeepsOrder(c: Candidate, sorted: seq<Candidate>)
    requires LongestFirst(sorted)
    ensures LongestFirst(Insert(c, sorted))
  {
    if sorted != [] && |sorted[0].text| > |c.text| {
      var tail := sorted[1..];
      assert LongestFirst(tail) by {
        forall i, j | 0 <= i < j < |tail| ensures |tail[j].text| <= |tail[i].text| {
          assert tail[i] == sorted[i + 1] && tail[j] == sorted[j + 1];
        }
      }
      assert AllWithin(tail, |sorted[0].text|) by {
        forall j | 0 <= j < |tail| ensures |tail[j].text| <= |sorted[0].text| {
          assert tail[j] == sorted[j + 1];
        }
      }
      InsertKeepsOrder(c, tail);
      InsertWithin(c, tail, |sorted[0].text|);
      var rest := Insert(c, tail);
      var r := [sorted[0]] + rest;
      forall i, j | 0 <= i < j < |r| ensures |r[j].text| <= |r[i].text| {
        assert r[j] == rest[j - 1];
        if i > 0 { assert r[i] == rest[i - 1]; }
      }
    }
  }

  /** The sort is a permutation of its input, ordered longest first. */
  lemma {:induction false} SortByLengthSorts(cs: seq<Candidate>)
    ensures LongestFirst(SortByLength(cs))
    ensures multiset(SortByLength(cs)) == multiset(cs)
  {
    if cs != [] {
      SortByLengthSorts(cs[1..]);
      InsertKeepsOrder(cs[0], SortByLength(cs[1..]));
      InsertPermutes(cs[0], SortByLength(cs[1..]));
      assert cs == [cs[0]] + cs[1..];
    }
  }

  /** Sorting does not lengthen any text. */
  lemma {:induction false} SortWithin(cs: seq<Candidate>, n: nat)
    requires AllWithin(cs, n)
    ensures AllWithin(SortByLength(cs), n)
  {
    if cs != [] {
      assert AllWithin(cs[1..], n) by {
        forall j | 0 <= j < |cs[1..]| ensures |cs[1..][j].text| <= n {
          assert cs[1..][j] == cs[j + 1];
        }
      }
      SortWithin(cs[1..], n);
      InsertWithin(cs[0], SortByLength(cs[1..]), n);
    }
  }

  /** Every non-empty candidate list has an earliest longest element. */
  lemma {:induction false} EarliestLongestExists(cs: seq<Candidate>)
    requires cs != []
    ensures exists k :: IsEarliestLongest(cs, k)
  {
    if |cs| > 1 {
      EarliestLongestExists(cs[1..]);
      var k :| IsEarliestLongest(cs[1..], k);
      if |cs[0].text| >= |cs[k + 1].text| {
        assert IsEarliestLongest(cs, 0);
      } else {
        assert IsEarliestLongest(cs, k + 1);
      }
    } else {
      assert IsEarliestLongest(cs, 0);
    }
  }

  /** The head of the sorted list is the earliest candidate of greatest length:
      the tie-break `all_texts[0]` gets from the stable sort. */
  lemma {:induction false} SortedHeadIsEarliestLongest(cs: seq<Candidate>, k: int)
    requires IsEarliestLongest(cs, k)
    ensures SortByLength(cs) != [] && SortByLength(cs)[0] == cs[k]
  {
    var tail := cs[1..];
    var rest := SortByLength(tail);
    assert SortByLength(cs) == Insert(cs[0], rest);
    if k == 0 {
      assert AllWithin(tail, |cs[0].text|) by {
        forall j | 0 <= j < |tail| ensures |tail[j].text| <= |cs[0].text| {
          assert tail[j] == cs[j + 1];
        }
      }
      SortWithin(tail, |cs[0].text|);
    } else {
      assert IsEarliestLongest(tail, k - 1) by {
        forall j | 0 <= j < |tail| ensures tail[j] == cs[j + 1] {
        }
      }
      SortedHeadIsEarliestLongest(tail, k - 1);
    }
  }
}

/**
 * The letter tally kept in the global `beasts = defaultdict(int)` of
 * task2/solution.py: one count per upper-cased first character of an entry
 * title. Keys are strings because Python's `str.upper` can turn one character
 * into several; the case mapping itself is a parameter `upper`.
 */
module Aggregator {

  /** `beasts[key]` read through the `defaultdict(int)`: a missing key reads as 0. */
  function Get(counts: map<string, int>, key: string): int
  {
    if key in counts then counts[key] else 0
  }

  /** The key a title is counted under: `title[0].upper()`. */
  function KeyOf(title: string, upper: char -> string): string
    requires title != ""
  {
    upper(title[0])
  }

  /** One iteration of the loop: an empty title is skipped, any other adds 1 to its key. */
  function Bump(counts: map<string, int>, title: string, upper: char -> string): (r: map<string, int>)
    ensures title == "" ==> r == counts
    ensures title != "" ==> r.Keys == counts.Keys + {KeyOf(title, upper)}
    ensures title != "" ==> forall k :: k in r ==> r[k] == Get(counts, k) + (if k == KeyOf(title, upper) then 1 else 0)
  {
    if title == "" then counts
    else
      var key := KeyOf(title, upper);
      counts[key := Get(counts, key) + 1]
  }

  /** The tally after the titles of one page have been recorded, in document order. */
  function Record(counts: map<string, int>, titles: seq<string>, upper: char -> string): map<string, int>
    decreases |titles|
  {
    if titles == [] then counts
    else Bump(Record(counts, titles[..|titles| - 1], upper), titles[|titles| - 1], upper)
  }

  /** How many of the titles are counted under `key`: the non-empty ones whose first character upper-cases to it. */
  function Tally(titles: seq<string>, key: string, upper: char -> string): nat
    decreases |titles|
  {
    if titles == [] then 0
    else
      var last := titles[|titles| - 1];
      Tally(titles[..|titles| - 1], key, upper) + (if last != "" && KeyOf(last, upper) == key then 1 else 0)
  }

  /** How many of the titles are non-empty, i.e. how many the loop counts. */
  function NonEmpty(titles: seq<string>): nat
    decreases |titles|
  {
    if titles == [] then 0
    else NonEmpty(titles[..|titles| - 1]) + (if titles[|titles| - 1] != "" then 1 else 0)
  }

  /** The keys some title of the sequence is counted under. */
  function FirstLetters(titles: seq<string>, upper: char -> string): set<string>
  {
    set t | t in titles && t != "" :: KeyOf(t, upper)
  }

  /**
   * Recording a page adds to every key exactly the number of non-empty titles
   * counted under it; in particular an empty title changes nothing.
   */
  lemma {:induction false} RecordCounts(counts: map<string, int>, titles: seq<string>, upper: char -> string, key: string)
    ensures Get(Record(counts, titles, upper), key) == Get(counts, key) + Tally(titles, key, upper)
    decreases |titles|
  {
    if titles != [] {
      RecordCounts(counts, titles[..|titles| - 1], upper, key);
    }
  }

  /** Recording a page adds exactly the first letters of its non-empty titles as keys, and removes none. */
  lemma {:induction false} RecordKeys(counts: map<string, int>, titles: seq<string>, upper: char -> string)
    ensures Record(counts, titles, upper).Keys == counts.Keys + FirstLetters(titles, upper)
    decreases |titles|
  {
    if titles != [] {
      var init, last := titles[..|titles| - 1], titles[|titles| - 1];
      RecordKeys(counts, init, upper);
      assert titles == init + [last];
      assert FirstLetters(titles, upper) == FirstLetters(init, upper) + (if last == "" then {} else {KeyOf(last, upper)});
    }
  }

  /** No key is ever removed and no count ever decreases. */
  lemma RecordMonotone(counts: map<string, int>, titles: seq<string>, upper: char -> string)
    ensures counts.Keys <= Record(counts, titles, upper).Keys
    ensures forall k :: k in counts ==> Record(counts, titles, upper)[k] >= counts[k]
  {
    RecordKeys(counts, titles, upper);
    forall k | k in counts
      ensures Record(counts, titles, upper)[k] >= counts[k]
    {
      RecordCounts(counts, titles, upper, k);
    }
  }

  /** A key that is no title's first letter keeps its count. */
  lemma RecordUntouched(counts: map<string, int>, titles: seq<string>, upper: char -> string, key: string)
    requires key !in FirstLetters(titles, upper)
    ensures key in Record(counts, titles, upper) <==> key in counts
    ensures Get(Record(counts, titles, upper), key) == Get(counts, key)
  {
    RecordKeys(counts, titles, upper);
    RecordCounts(counts, titles, upper, key);
    TallyOutside(titles, key, upper);
  }

  lemma {:induction false} TallyOutside(titles: seq<string>, key: string, upper: char -> string)
    requires key !in FirstLetters(titles, upper)
    ensures Tally(titles, key, upper) == 0
    decreases |titles|
  {
    if titles != [] {
      var init := titles[..|titles| - 1];
      assert FirstLetters(init, upper) <= FirstLetters(titles, upper);
      TallyOutside(init, key, upper);
    }
  }

  /** Recording two pages one after the other is recording their concatenation. */
  lemma {:induction false} RecordAppend(counts: map<string, int>, a: seq<string>, b: seq<string>, upper: char -> string)
    ensures Record(Record(counts, a, upper), b, upper) == Record(counts, a + b, upper)
    decreases |b|
  {
    if b != [] {
      var init := b[..|b| - 1];
      assert (a + b)[..|a + b| - 1] == a + init;
      RecordAppend(counts, a, init, upper);
    } else {
      assert a + b == a;
    }
  }

  /** Counting does not depend on the order in which pages are recorded. */
  lemma RecordCommutes(counts: map<string, int>, a: seq<string>, b: seq<string>, upper: char -> string)
    ensures Record(Record(counts, a, upper), b, upper) == Record(Record(counts, b, upper), a, upper)
  {
    var ab, ba := Record(Record(counts, a, upper), b, upper), Record(Record(counts, b, upper), a, upper);
    RecordKeys(counts, a, upper);
    RecordKeys(counts, b, upper);
    RecordKeys(Record(counts, a, upper), b, upper);
    RecordKeys(Record(counts, b, upper), a, upper);
    forall k | k in ab
      ensures k in ba && ab[k] == ba[k]
    {
      RecordCounts(counts, a, upper, k);
      RecordCounts(counts, b, upper, k);
      RecordCounts(Record(counts, a, upper), b, upper, k);
      RecordCounts(Record(counts, b, upper), a, upper, k);
    }
  }

  /** The sum of all counts. */
  ghost function Total(counts: map<string, int>): int
    decreases |counts|
  {
    if counts == map[] then 0
    else
      var k :| k in counts;
      counts[k] + Total(counts - {k})
  }

  /** Total does not depend on which key it takes out first. */
  lemma {:induction false} TotalRemove(counts: map<string, int>, key: string)
    requires key in counts
    ensures Total(counts) == counts[key] + Total(counts - {key})
    decreases |counts|
  {
    var j :| j in counts && Total(counts) == counts[j] + Total(counts - {j});
    if j != key {
      var rest := counts - {j} - {key};
      assert counts - {key} - {j} == rest;
      assert |counts - {j}| < |counts| by { assert counts.Keys - {j} < counts.Keys; }
      assert |counts - {key}| < |counts| by { assert counts.Keys - {key} < counts.Keys; }
      TotalRemove(counts - {j}, key);
      TotalRemove(counts - {key}, j);
    }
  }

  /** Setting one key changes the total by the difference of its new and old count. */
  lemma TotalUpdate(counts: map<string, int>, key: string, v: int)
    ensures Total(counts[key := v]) == Total(counts) - Get(counts, key) + v
  {
    var after := counts[key := v];
    TotalRemove(after, key);
    if key in counts {
      TotalRemove(counts, key);
      assert after - {key} == counts - {key};
    } else {
      assert after - {key} == counts;
    }
  }

  /** Recording a page raises the sum of all counts by exactly the number of non-empty titles. */
  lemma {:induction false} RecordTotal(counts: map<string, int>, titles: seq<string>, upper: char -> string)
    ensures Total(Record(counts, titles, upper)) == Total(counts) + NonEmpty(titles)
    decreases |titles|
  {
    if titles != [] {
      var init, last := titles[..|titles| - 1], titles[|titles| - 1];
      RecordTotal(counts, init, upper);
      if last != "" {
        var before := Record(counts, init, upper);
        TotalUpdate(before, KeyOf(last, upper), Get(before, KeyOf(last, upper)) + 1);
      }
    }
  }
}

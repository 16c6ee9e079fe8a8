/**
 * The rows `save_results_to_file` of task2/solution.py writes: an optional
 * header, then one `[letter, count]` row per key of the tally, in ascending key
 * order. Opening the file, quoting and encoding are left out.
 */
module ResultSink {
  import opened StringOrder

  /** One CSV cell: a string, or an integer as `csv.writer` receives it. */
  datatype Cell = Text(text: string) | Number(value: int)

  type Row = seq<Cell>

  /** The header row, written only when the file did not exist before. */
  const Header: Row := [Text("Буква"), Text("Количество")]

  /** The row written for one key. */
  function CountRow(key: string, count: int): Row
  {
    [Text(key), Number(count)]
  }

  /** Insert a new key into a strictly ascending sequence of keys. */
  function Insert(key: string, keys: seq<string>): (r: seq<string>)
    requires StrictlyAscending(keys) && key !in keys
    ensures StrictlyAscending(r)
    ensures |r| == |keys| + 1
    ensures forall x :: x in r <==> x == key || x in keys
    decreases |keys|
  {
    if keys == [] then [key]
    else if Less(key, keys[0]) then
      assert forall j :: 0 < j < |keys| ==> Less(key, keys[j]) by {
        forall j | 0 < j < |keys| ensures Less(key, keys[j]) {
          LessTransitive(key, keys[0], keys[j]);
        }
      }
      [key] + keys
    else
      LessTotal(key, keys[0]);
      var tail := Insert(key, keys[1..]);
      assert forall x :: x in tail ==> Less(keys[0], x) by {
        forall x | x in tail ensures Less(keys[0], x) {
          if x != key {
            var j :| 0 <= j < |keys[1..]| && keys[1..][j] == x;
            assert keys[j + 1] == x;
          }
        }
      }
      [keys[0]] + tail
  }

  /** The keys of the tally in the order `sorted` puts them: strictly ascending, each once. */
  ghost function SortedKeys(keys: set<string>): (r: seq<string>)
    ensures StrictlyAscending(r)
    ensures |r| == |keys|
    ensures forall x :: x in r <==> x in keys
    decreases |keys|
  {
    if keys == {} then []
    else
      var k :| k in keys;
      Insert(k, SortedKeys(keys - {k}))
  }

  /** One `[key, count]` row per key, in the order of `keys`. */
  function CountRows(keys: seq<string>, counts: map<string, int>): (rows: seq<Row>)
    requires forall k :: k in keys ==> k in counts
    ensures |rows| == |keys|
    ensures forall i :: 0 <= i < |keys| ==> rows[i] == CountRow(keys[i], counts[keys[i]])
    decreases |keys|
  {
    if keys == [] then []
    else CountRows(keys[..|keys| - 1], counts) + [CountRow(keys[|keys| - 1], counts[keys[|keys| - 1]])]
  }

  /** The key cell of a row ("" for a row without one). */
  function RowKey(row: Row): string
  {
    if |row| > 0 && row[0].Text? then row[0].text else ""
  }

  /** The row is the `[key, count]` row of one key of the tally. */
  predicate IsCountRowOf(row: Row, counts: map<string, int>)
  {
    RowKey(row) in counts && row == CountRow(RowKey(row), counts[RowKey(row)])
  }

  /**
   * The rows written to the file: the header first exactly when the file did
   * not exist (it is overwritten either way), then the count rows.
   */
  ghost function Rows(counts: map<string, int>, fileExisted: bool): (rows: seq<Row>)
    ensures |rows| == |counts| + (if fileExisted then 0 else 1)
    ensures (|rows| > 0 && rows[0] == Header) <==> !fileExisted
  {
    var keys := SortedKeys(counts.Keys);
    assert |keys| == |counts| by { assert |counts.Keys| == |counts|; }
    (if fileExisted then [] else [Header]) + CountRows(keys, counts)
  }

  /**
   * After the optional header, every row is the `[key, count]` row of a key of
   * the tally, and every key of the tally has such a row.
   */
  lemma {:induction false} RowsContent(counts: map<string, int>, fileExisted: bool)
    ensures var rows, first := Rows(counts, fileExisted), if fileExisted then 0 else 1;
            && (forall i :: first <= i < |rows| ==> IsCountRowOf(rows[i], counts))
            && (forall k :: k in counts ==> exists i :: first <= i < |rows| && rows[i] == CountRow(k, counts[k]))
  {
    var rows, first := Rows(counts, fileExisted), if fileExisted then 0 else 1;
    var keys := SortedKeys(counts.Keys);
    forall i | first <= i < |rows|
      ensures IsCountRowOf(rows[i], counts)
    {
      RowAt(counts, fileExisted, i);
    }
    forall k | k in counts
      ensures exists i :: first <= i < |rows| && rows[i] == CountRow(k, counts[k])
    {
      var j :| 0 <= j < |keys| && keys[j] == k;
      RowAt(counts, fileExisted, j + first);
    }
  }

  /** After the optional header, the keys are strictly ascending, so no key is listed twice. */
  lemma {:induction false} RowsAscending(counts: map<string, int>, fileExisted: bool)
    ensures var rows, first := Rows(counts, fileExisted), if fileExisted then 0 else 1;
            && (forall i, j :: first <= i < j < |rows| ==> Less(RowKey(rows[i]), RowKey(rows[j])))
            && (forall i, j :: first <= i < j < |rows| ==> RowKey(rows[i]) != RowKey(rows[j]))
  {
    var rows, first := Rows(counts, fileExisted), if fileExisted then 0 else 1;
    var keys := SortedKeys(counts.Keys);
    forall i, j | first <= i < j < |rows|
      ensures Less(RowKey(rows[i]), RowKey(rows[j])) && RowKey(rows[i]) != RowKey(rows[j])
    {
      RowAt(counts, fileExisted, i);
      RowAt(counts, fileExisted, j);
      LessIrreflexive(RowKey(rows[i]));
    }
  }

  /** The row at position i, past the header, is the count row of the (i - first)-th smallest key. */
  lemma RowAt(counts: map<string, int>, fileExisted: bool, i: int)
    requires (if fileExisted then 0 else 1) <= i < |Rows(counts, fileExisted)|
    ensures var k := SortedKeys(counts.Keys)[i - (if fileExisted then 0 else 1)];
            k in counts && Rows(counts, fileExisted)[i] == CountRow(k, counts[k])
  {
    var keys := SortedKeys(counts.Keys);
    var body := CountRows(keys, counts);
    var rows := Rows(counts, fileExisted);
    if fileExisted {
      assert rows == body;
      assert keys[i] in keys;
    } else {
      assert rows == [Header] + body;
      assert rows[i] == body[i - 1];
      assert keys[i - 1] in keys;
    }
  }

  /** Reading the rows back: every `[key, count]` row becomes an entry; the header is skipped. */
  function ReadBack(rows: seq<Row>): map<string, int>
    decreases |rows|
  {
    if rows == [] then map[]
    else
      var last := rows[|rows| - 1];
      var before := ReadBack(rows[..|rows| - 1]);
      if |last| == 2 && last[0].Text? && last[1].Number? then before[last[0].text := last[1].value] else before
  }

  lemma {:induction false} ReadBackCountRows(keys: seq<string>, counts: map<string, int>)
    requires forall k :: k in keys ==> k in counts
    ensures forall k :: k in ReadBack(CountRows(keys, counts)) <==> k in keys
    ensures forall k :: k in ReadBack(CountRows(keys, counts)) ==> ReadBack(CountRows(keys, counts))[k] == counts[k]
    decreases |keys|
  {
    if keys != [] {
      var init := keys[..|keys| - 1];
      var rows := CountRows(keys, counts);
      assert rows[..|rows| - 1] == CountRows(init, counts);
      ReadBackCountRows(init, counts);
      assert forall k :: k in keys <==> k in init || k == keys[|keys| - 1];
    }
  }

  lemma {:induction false} ReadBackSkipsHeader(body: seq<Row>)
    ensures ReadBack([Header] + body) == ReadBack(body)
    decreases |body|
  {
    if body != [] {
      assert ([Header] + body)[..|body|] == [Header] + body[..|body| - 1];
      ReadBackSkipsHeader(body[..|body| - 1]);
    } else {
      assert ReadBack([Header][..0]) == map[];
    }
  }

  /** Reading the written rows back gives exactly the tally that was saved. */
  lemma {:induction false} RowsRoundTrip(counts: map<string, int>, fileExisted: bool)
    ensures ReadBack(Rows(counts, fileExisted)) == counts
  {
    var keys := SortedKeys(counts.Keys);
    var body := CountRows(keys, counts);
    assert Rows(counts, fileExisted) == (if fileExisted then [] else [Header]) + body;
    ReadBackCountRows(keys, counts);
    assert ReadBack(body) == counts;
    if !fileExisted {
      ReadBackSkipsHeader(body);
    } else {
      assert [] + body == body;
    }
  }

  /** The keys "A" and "B" sort as "A", "B". */
  lemma TwoKeysSorted()
    ensures SortedKeys({"A", "B"}) == ["A", "B"]
  {
    var keys := SortedKeys({"A", "B"});
    assert keys[0] in {"A", "B"} && keys[1] in {"A", "B"};
    assert Less(keys[0], keys[1]);
    assert !Less("B", "A") && !Less("A", "A") && !Less("B", "B");
  }

  /** An example: the tally {A: 2, B: 2}, saved to a new file, gives the header, then A,2, then B,2. */
  lemma TwoKeyExample()
    ensures Rows(map["A" := 2, "B" := 2], false) == [Header, CountRow("A", 2), CountRow("B", 2)]
  {
    var counts := map["A" := 2, "B" := 2];
    assert counts.Keys == {"A", "B"};
    TwoKeysSorted();
    RowAt(counts, false, 1);
    RowAt(counts, false, 2);
  }
}

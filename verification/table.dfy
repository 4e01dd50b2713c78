/** Turning the rows of the talk tables into talks. A row is the sequence of
    the texts of its cells, in column order; the tables that match the page's
    table selector are given in document order. */
module Extract {
  import opened Talks

  type Row = seq<string>

  /** The text of the n-th cell of a row, counting from 1; a cell the row does
      not have reads as empty text. */
  function Cell(row: Row, n: nat): string {
    if 1 <= n <= |row| then row[n - 1] else ""
  }

  /** The five fields of a talk in column order. */
  function Columns(t: Talk): seq<string> {
    [t.title, t.audience, t.format, t.suggestedBy, t.presenter]
  }

  /** The talk a row describes: its first five cells, with missing ones read
      as empty and any further ones ignored. */
  function ToTalk(row: Row): (t: Talk)
    ensures Columns(t) == (row + seq(5, _ => ""))[..5]
    ensures t.title == "" <==> |row| == 0 || row[0] == ""
  {
    Talk(Cell(row, 1), Cell(row, 2), Cell(row, 3), Cell(row, 4), Cell(row, 5))
  }

  /** A row is kept when the text of its first cell, untrimmed, is not empty. */
  predicate HasTitle(row: Row) {
    Cell(row, 1) != ""
  }

  /** The talks of the rows: one per row that has a title, in row order. */
  function ImportRows(rows: seq<Row>): (talks: seq<Talk>)
    ensures |talks| <= |rows|
    ensures forall k :: 0 <= k < |talks| ==> talks[k].title != ""
    decreases |rows|
  {
    if rows == [] then []
    else
      var last := rows[|rows| - 1];
      var init := ImportRows(rows[..|rows| - 1]);
      if HasTitle(last) then init + [ToTalk(last)] else init
  }

  /** The positions of the rows that have a title, in increasing order. */
  function KeptIndices(rows: seq<Row>): (idx: seq<nat>)
    ensures forall j :: 0 <= j < |idx| ==> idx[j] < |rows|
    ensures forall j, k :: 0 <= j < k < |idx| ==> idx[j] < idx[k]
    ensures forall i :: 0 <= i < |rows| ==> (i in idx <==> HasTitle(rows[i]))
    decreases |rows|
  {
    if rows == [] then []
    else
      var n := |rows| - 1;
      var init := KeptIndices(rows[..n]);
      assert forall i :: 0 <= i < n ==> rows[..n][i] == rows[i];
      if HasTitle(rows[n]) then init + [n] else init
  }

  /** The talks are exactly the rows that have a title, converted, in row
      order: the j-th talk comes from the row at the j-th kept position. */
  lemma {:induction false} ImportRowsSelects(rows: seq<Row>)
    ensures |ImportRows(rows)| == |KeptIndices(rows)|
    ensures forall j :: 0 <= j < |KeptIndices(rows)| ==>
      ImportRows(rows)[j] == ToTalk(rows[KeptIndices(rows)[j]])
    decreases |rows|
  {
    if rows != [] {
      var n := |rows| - 1;
      ImportRowsSelects(rows[..n]);
      var talks, idx := ImportRows(rows), KeptIndices(rows);
      var talks', idx' := ImportRows(rows[..n]), KeptIndices(rows[..n]);
      if HasTitle(rows[n]) {
        assert talks == talks' + [ToTalk(rows[n])] && idx == idx' + [n];
      } else {
        assert talks == talks' && idx == idx';
      }
      forall j | 0 <= j < |idx| ensures talks[j] == ToTalk(rows[idx[j]]) {
        if j < |idx'| {
          assert talks[j] == talks'[j] == ToTalk(rows[..n][idx'[j]]);
        }
      }
    }
  }

  /** Importing consecutive runs of rows is importing each run in turn. */
  lemma {:induction false} ImportRowsAppend(a: seq<Row>, b: seq<Row>)
    ensures ImportRows(a + b) == ImportRows(a) + ImportRows(b)
    decreases |b|
  {
    if b == [] {
      assert a + b == a;
    } else {
      var n := |b| - 1;
      assert (a + b)[..|a + b| - 1] == a + b[..n];
      assert (a + b)[|a + b| - 1] == b[n];
      ImportRowsAppend(a, b[..n]);
    }
  }

  /** All rows of the matched tables, table after table, each in row order. */
  function Flatten(tables: seq<seq<Row>>): (rows: seq<Row>)
    decreases |tables|
  {
    if tables == [] then [] else Flatten(tables[..|tables| - 1]) + tables[|tables| - 1]
  }

  /** The talks of each table, table after table. */
  function ImportEach(tables: seq<seq<Row>>): (talks: seq<Talk>)
    decreases |tables|
  {
    if tables == [] then [] else ImportEach(tables[..|tables| - 1]) + ImportRows(tables[|tables| - 1])
  }

  /** Reading all rows of all tables at once keeps table order: it gives the
      talks of the first table, then those of the second, and so on. */
  lemma {:induction false} ImportTablesInOrder(tables: seq<seq<Row>>)
    ensures ImportRows(Flatten(tables)) == ImportEach(tables)
    decreases |tables|
  {
    if tables != [] {
      var n := |tables| - 1;
      ImportTablesInOrder(tables[..n]);
      ImportRowsAppend(Flatten(tables[..n]), tables[n]);
    }
  }

  /** Walks every row of the matched tables in document order, builds the talk
      each row describes and appends it to the result when its title is not
      empty. */
  method ImportTable(tables: seq<seq<Row>>) returns (talks: seq<Talk>)
    ensures talks == ImportRows(Flatten(tables))
  {
    var rows := Flatten(tables);
    talks := [];
    var i := 0;
    while i < |rows|
      invariant 0 <= i <= |rows|
      invariant talks == ImportRows(rows[..i])
    {
      var talk := ToTalk(rows[i]);
      assert rows[..i + 1][..i] == rows[..i];
      if talk.title != "" {
        talks := talks + [talk];
      }
      i := i + 1;
    }
    assert rows[..|rows|] == rows;
  }
}

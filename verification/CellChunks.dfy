/** Decoding the chunks in which Bigtable sends the rows of a read. */
module CellChunks {
  import opened Wrappers
  import opened RecordIds

  datatype Cell = Cell(family: string, qualifier: Bytes, timestamp: int, value: Bytes)

  datatype Row = Row(key: Bytes, cells: seq<Cell>)

  datatype RowStatus = ResetRow(flag: bool) | CommitRow(flag: bool)

  datatype CellChunk = CellChunk(rowKey: Bytes, family: Option<string>, qualifier: Option<Bytes>,
                                 timestamp: int, value: Bytes, valueSize: int, status: Option<RowStatus>)

  /** An active row: its finished cells, and the one being received. */
  datatype RowBuffer = RowBuffer(key: Bytes, completed: seq<Cell>, cell: Cell)

  /** `Panicked` stands for a failed assertion. */
  datatype Processed = Panicked | Processed(active: Option<RowBuffer>, row: Option<Row>)

  predicate Resets(c: CellChunk) { c.status == Some(ResetRow(true)) }

  predicate Commits(c: CellChunk) { c.status == Some(CommitRow(true)) }

  /** The cell that is active after the chunk, and the finished ones. */
  function NewCell(c: CellChunk, completed: seq<Cell>, prior: Option<Cell>): Option<(seq<Cell>, Cell)> {
    match c.qualifier
    case Some(qualifier) =>
      if (c.family.None? && prior.None?) || c.valueSize < 0 then None
      else
        var family := if c.family.Some? then c.family.value else prior.value.family;
        Some((if prior.Some? then completed + [prior.value] else completed, Cell(family, qualifier, c.timestamp, c.value)))
    case None =>
      if prior.None? then None else Some((completed, prior.value.(value := prior.value.value + c.value)))
  }

  function ProcessReadChunk(c: CellChunk, active: Option<RowBuffer>): Processed {
    var goesOn := active.Some? && !Resets(c);
    if (if goesOn then c.rowKey != [] && c.rowKey != active.value.key else c.rowKey == []) then Panicked
    else
      var key := if goesOn then active.value.key else c.rowKey;
      var completed := if goesOn then active.value.completed else [];
      var prior := if goesOn then Some(active.value.cell) else None;
      match NewCell(c, completed, prior)
      case None => Panicked
      case Some((cells, cell)) =>
        if Commits(c) then Processed(None, Some(Row(key, cells + [cell])))
        else Processed(Some(RowBuffer(key, cells, cell)), None)
  }

  datatype Decoded = Failed | Decoded(rows: seq<Row>, active: Option<RowBuffer>)

  function After(rows: seq<Row>, d: Decoded): Decoded {
    if d.Failed? then Failed else Decoded(rows + d.rows, d.active)
  }

  /** Processes one chunk after the other. */
  function Decode(chunks: seq<CellChunk>, active: Option<RowBuffer>): Decoded
    decreases |chunks|
  {
    if chunks == [] then Decoded([], active)
    else match ProcessReadChunk(chunks[0], active) {
      case Panicked => Failed
      case Processed(next, row) => After(if row.Some? then [row.value] else [], Decode(chunks[1..], next))
    }
  }

  lemma AfterAfter(a: seq<Row>, b: seq<Row>, d: Decoded)
    ensures After(a, After(b, d)) == After(a + b, d)
  {
    if d.Decoded? { assert a + (b + d.rows) == a + b + d.rows; }
  }

  lemma {:induction false} DecodeConcat(a: seq<CellChunk>, b: seq<CellChunk>, active: Option<RowBuffer>)
    requires Decode(a, active).Decoded?
    ensures Decode(a + b, active) == After(Decode(a, active).rows, Decode(b, Decode(a, active).active))
    decreases |a|
  {
    if a == [] {
      assert a + b == b;
    } else {
      var p := ProcessReadChunk(a[0], active);
      assert (a + b)[1..] == a[1..] + b;
      DecodeConcat(a[1..], b, p.active);
      var d := Decode(a[1..], p.active);
      AfterAfter(if p.row.Some? then [p.row.value] else [], d.rows, Decode(b, d.active));
    }
  }

  // ---- Cutting a row into chunks ----

  /** A part of a cell's value; `starts` tells whether it is the cell's first. */
  datatype Slice = Slice(cell: nat, starts: bool, from: nat, to: nat)

  predicate InRow(row: Row, s: Slice) {
    s.cell < |row.cells| && s.from <= s.to <= |row.cells[s.cell].value|
  }

  /** Slice `t` takes up where `s` ends: in the same cell, or in the next once the cell is finished. */
  predicate Follows(row: Row, s: Slice, t: Slice) {
    && InRow(row, s) && InRow(row, t)
    && if t.starts then t.cell == s.cell + 1 && t.from == 0 && s.to == |row.cells[s.cell].value|
       else t.cell == s.cell && t.from == s.to
  }

  /** What a chunk for a slice holds. The family is left out only if it is that of the cell before. */
  predicate Carries(c: CellChunk, row: Row, s: Slice) {
    && InRow(row, s) && c.value == row.cells[s.cell].value[s.from..s.to]
    && if s.starts then
         && c.qualifier == Some(row.cells[s.cell].qualifier) && c.timestamp == row.cells[s.cell].timestamp && c.valueSize >= 0
         && (c.family == Some(row.cells[s.cell].family)
             || (c.family == None && s.cell > 0 && row.cells[s.cell - 1].family == row.cells[s.cell].family))
       else c.qualifier == None
  }

  /** The chunks of one row, either up to its end or abandoned before. */
  datatype Item = Item(row: Row, slices: seq<Slice>, chunks: seq<CellChunk>, whole: bool)

  ghost predicate Chunked(t: Item, i: nat)
    requires i < |t.chunks| == |t.slices|
  {
    && Carries(t.chunks[i], t.row, t.slices[i])
    && (if i == 0 then t.slices[i] == Slice(0, true, 0, t.slices[i].to) && t.chunks[i].rowKey == t.row.key
        else Follows(t.row, t.slices[i - 1], t.slices[i]) && (t.chunks[i].rowKey == [] || t.chunks[i].rowKey == t.row.key))
    && (i > 0 ==> !Resets(t.chunks[i]))
    && (Commits(t.chunks[i]) <==> t.whole && i == |t.chunks| - 1)
  }

  ghost predicate ValidItem(t: Item) {
    && t.row.key != [] && t.row.cells != [] && |t.slices| == |t.chunks| > 0
    && (forall i: nat :: i < |t.chunks| ==> Chunked(t, i))
    && (t.whole ==> var last := t.slices[|t.slices| - 1];
                    last.cell == |t.row.cells| - 1 && last.to == |t.row.cells[last.cell].value|)
  }

  /** After an abandoned row the next one starts with a reset. */
  ghost predicate ValidStream(items: seq<Item>) {
    && (forall i :: 0 <= i < |items| ==> ValidItem(items[i]))
    && (forall i, j :: 0 <= i < |items| && 0 <= j < |items| && j == i + 1 && !items[i].whole ==> Resets(items[j].chunks[0]))
  }

  function Flatten(items: seq<Item>): seq<CellChunk> {
    if items == [] then [] else Flatten(items[..|items| - 1]) + items[|items| - 1].chunks
  }

  /** The rows sent to their end. */
  function RowsOf(items: seq<Item>): seq<Row> {
    if items == [] then []
    else RowsOf(items[..|items| - 1]) + if items[|items| - 1].whole then [items[|items| - 1].row] else []
  }

  // ---- Decoding gives the rows back ----

  /** The buffer once the slices up to `s` have been received. */
  function BufferAt(row: Row, s: Slice): RowBuffer
    requires InRow(row, s)
  {
    RowBuffer(row.key, row.cells[..s.cell], row.cells[s.cell].(value := row.cells[s.cell].value[..s.to]))
  }

  /** The decoder is where the item's chunk `i` may come. */
  ghost predicate Ready(t: Item, i: nat, active: Option<RowBuffer>) {
    && ValidItem(t) && i < |t.chunks|
    && if i == 0 then active.None? || Resets(t.chunks[0])
       else InRow(t.row, t.slices[i - 1]) && active == Some(BufferAt(t.row, t.slices[i - 1]))
  }

  lemma NextSlice(t: Item, i: nat, active: Option<RowBuffer>)
    requires Ready(t, i, active)
    ensures InRow(t.row, t.slices[i])
    ensures ProcessReadChunk(t.chunks[i], active) ==
            if t.whole && i == |t.chunks| - 1 then Processed(None, Some(t.row)) else Processed(Some(BufferAt(t.row, t.slices[i])), None)
  {
    var s, c, cells := t.slices[i], t.chunks[i], t.row.cells;
    assert Chunked(t, i);
    if s.starts {
      assert cells[s.cell].value[..s.to] == c.value;
      if i > 0 {
        var p := t.slices[i - 1];
        assert cells[p.cell].value[..p.to] == cells[p.cell].value;
        assert cells[..s.cell] == cells[..p.cell] + [cells[p.cell]];
      }
    } else {
      assert cells[s.cell].value[..s.from] + c.value == cells[s.cell].value[..s.to];
    }
    if t.whole && i == |t.chunks| - 1 {
      assert cells[s.cell].value[..s.to] == cells[s.cell].value;
      assert cells[..s.cell] + [cells[s.cell]] == cells;
    }
  }

  lemma {:induction false} ItemDecodes(t: Item, i: nat, active: Option<RowBuffer>)
    requires Ready(t, i, active)
    ensures var d := Decode(t.chunks[i..], active);
            d.Decoded? && d.rows == (if t.whole then [t.row] else []) && (d.active.None? <==> t.whole)
    decreases |t.chunks| - i
  {
    NextSlice(t, i, active);
    assert t.chunks[i..][1..] == t.chunks[i + 1..];
    if i < |t.chunks| - 1 { ItemDecodes(t, i + 1, Some(BufferAt(t.row, t.slices[i]))); }
  }

  /** Decoding any stream of cut rows gives exactly the rows sent to their end,
      in order, and an active row exactly if the last one was abandoned. */
  lemma {:induction false} StreamDecodes(items: seq<Item>)
    requires ValidStream(items)
    ensures var d := Decode(Flatten(items), None);
            d.Decoded? && d.rows == RowsOf(items) && (d.active.None? <==> items == [] || items[|items| - 1].whole)
  {
    if items != [] {
      var n := |items| - 1;
      var front, t := items[..n], items[n];
      StreamDecodes(front);
      var d := Decode(Flatten(front), None);
      assert n > 0 ==> front[n - 1] == items[n - 1];
      ItemDecodes(t, 0, d.active);
      assert t.chunks[0..] == t.chunks;
      DecodeConcat(Flatten(front), t.chunks, None);
    }
  }

  /** A stream cut off in its last item. */
  lemma CutInLast(front: seq<Item>, t: Item, m: nat)
    requires ValidStream(front + [t]) && 0 < m < |t.chunks|
    ensures var d := Decode(Flatten(front) + t.chunks[..m], None);
            d.Decoded? && d.rows == RowsOf(front)
  {
    var items := front + [t];
    assert items[|front|] == t;
    CutItem(t, m);
    var cut := Item(t.row, t.slices[..m], t.chunks[..m], false);
    var all := front + [cut];
    assert all[..|front|] == front && forall i :: 0 <= i < |front| ==> all[i] == items[i];
    StreamDecodes(all);
  }

  /** A stream that is cut off anywhere gives a prefix of the rows. */
  lemma {:induction false} CutStreamDecodes(items: seq<Item>, n: nat)
    requires ValidStream(items) && n <= |Flatten(items)|
    ensures var d := Decode(Flatten(items)[..n], None);
            d.Decoded? && d.rows <= RowsOf(items)
    decreases |items|
  {
    if n == |Flatten(items)| {
      assert Flatten(items)[..n] == Flatten(items);
      StreamDecodes(items);
    } else {
      var front, t := items[..|items| - 1], items[|items| - 1];
      var m := n - |Flatten(front)|;
      if m <= 0 {
        assert Flatten(items)[..n] == Flatten(front)[..n];
        CutStreamDecodes(front, n);
      } else {
        assert Flatten(items)[..n] == Flatten(front) + t.chunks[..m];
        assert items == front + [t];
        CutInLast(front, t, m);
      }
    }
  }

  lemma CutItem(t: Item, n: nat)
    requires ValidItem(t) && 0 < n < |t.chunks|
    ensures ValidItem(Item(t.row, t.slices[..n], t.chunks[..n], false))
  {
    var cut := Item(t.row, t.slices[..n], t.chunks[..n], false);
    forall i: nat | i < n ensures Chunked(cut, i) { assert Chunked(t, i); }
  }

  /** A row is active at the end exactly if the last chunk does not end one. */
  lemma {:induction false} EndsInRow(chunks: seq<CellChunk>, active: Option<RowBuffer>)
    requires chunks != [] && Decode(chunks, active).Decoded?
    ensures Decode(chunks, active).active.Some? <==> !Commits(chunks[|chunks| - 1])
    decreases |chunks|
  {
    var next := ProcessReadChunk(chunks[0], active).active;
    if |chunks| > 1 {
      EndsInRow(chunks[1..], next);
    } else {
      assert Decode(chunks[1..], next) == Decoded([], next);
    }
  }

  /** A reset that does not carry the key of the row to come is not understood. */
  lemma BareResetPanics(c: CellChunk, active: Option<RowBuffer>)
    requires Resets(c)
    ensures ProcessReadChunk(c, active) == Panicked <==>
            c.rowKey == [] || c.qualifier == None || c.family == None || c.valueSize < 0
  {}
}

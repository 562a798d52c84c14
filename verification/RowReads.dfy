/**
 Reading rows from Bigtable with retries.

 An attempt may break off anywhere. The next one asks only for the keys after
 the last row received, and rows that come again are dropped.
 */
module RowReads {
  import opened Wrappers
  import opened Orderings
  import opened RecordIds
  import opened CellChunks

  type Key = Bytes

  // ---- The order of keys ----

  predicate Below(a: Key, b: Key) {
    Compare(a, b) == Less
  }

  lemma {:induction false} KeysTotal(a: Key, b: Key)
    ensures Compare(a, b) == Equal <==> a == b
    ensures Compare(a, b) == Less <==> Compare(b, a) == Greater
  {
    if a != [] && b != [] {
      KeysTotal(a[1..], b[1..]);
      if a[0] == b[0] { assert a == [a[0]] + a[1..] && b == [b[0]] + b[1..]; }
    }
  }

  lemma {:induction false} KeysTransitive(a: Key, b: Key, c: Key)
    requires Below(a, b) && Below(b, c)
    ensures Below(a, c)
  {
    if a != [] && a[0] == b[0] == c[0] { KeysTransitive(a[1..], b[1..], c[1..]); }
  }

  // ---- What a request asks for ----

  datatype Start = StartAny | StartClosed(at: Key) | StartOpen(at: Key)
  datatype End = EndAny | EndClosed(at: Key) | EndOpen(at: Key)
  datatype RowRange = RowRange(start: Start, end: End)
  datatype RowSet = RowSet(keys: seq<Key>, ranges: seq<RowRange>)

  predicate Starts(s: Start, k: Key) {
    match s case StartAny => true case StartClosed(a) => !Below(k, a) case StartOpen(a) => Below(a, k)
  }

  predicate Ends(e: End, k: Key) {
    match e case EndAny => true case EndClosed(a) => !Below(a, k) case EndOpen(a) => Below(k, a)
  }

  /** No row set asks for all keys. */
  predicate Asks(rows: Option<RowSet>, k: Key) {
    rows.None? || k in rows.value.keys || exists r <- rows.value.ranges :: Starts(r.start, k) && Ends(r.end, k)
  }

  /** Whether the assertions on a request hold: it asks for something, and no range is empty on its face. */
  predicate ValidateRequestRows(rows: Option<RowSet>) {
    rows.Some? ==>
      && (rows.value.keys != [] || rows.value.ranges != [])
      && forall r <- rows.value.ranges :: ValidRange(r)
  }

  predicate ValidRange(r: RowRange) {
    r.start == StartAny || r.end == EndAny
    || (if r.start.StartClosed? && r.end.EndClosed? then !Below(r.end.at, r.start.at) else Below(r.start.at, r.end.at))
  }

  // ---- Narrowing a request ----

  function KeysAfter(keys: seq<Key>, last: Key): seq<Key> {
    if keys == [] then [] else (if Below(last, keys[0]) then [keys[0]] else []) + KeysAfter(keys[1..], last)
  }

  lemma {:induction false} KeysAfterAre(keys: seq<Key>, last: Key)
    ensures forall k :: k in KeysAfter(keys, last) <==> k in keys && Below(last, k)
  {
    if keys != [] { KeysAfterAre(keys[1..], last); }
  }

  predicate EndsAfter(r: RowRange, last: Key) {
    r.end == EndAny || Below(last, r.end.at)
  }

  function StartAfter(r: RowRange, last: Key): RowRange {
    if r.start == StartAny || !Below(last, r.start.at) then r.(start := StartOpen(last)) else r
  }

  function RangesAfter(ranges: seq<RowRange>, last: Key): seq<RowRange> {
    if ranges == [] then []
    else (if EndsAfter(ranges[0], last) then [StartAfter(ranges[0], last)] else []) + RangesAfter(ranges[1..], last)
  }

  lemma {:induction false} RangesAfterAre(ranges: seq<RowRange>, last: Key)
    ensures forall x <- RangesAfter(ranges, last) :: exists y <- ranges :: EndsAfter(y, last) && x == StartAfter(y, last)
    ensures forall y <- ranges :: EndsAfter(y, last) ==> StartAfter(y, last) in RangesAfter(ranges, last)
  {
    if ranges != [] {
      RangesAfterAre(ranges[1..], last);
      assert ranges[0] in ranges;
      forall x | x in RangesAfter(ranges, last) ensures exists y <- ranges :: EndsAfter(y, last) && x == StartAfter(y, last) {
        if x in RangesAfter(ranges[1..], last) {
          var y :| y in ranges[1..] && EndsAfter(y, last) && x == StartAfter(y, last);
          assert y in ranges;
        }
      }
    }
  }

  /** The narrowed request, before it is validated. */
  function ClampForward(rows: Option<RowSet>, last: Key): Option<RowSet> {
    if rows.None? then Some(RowSet([], [RowRange(StartOpen(last), EndAny)]))
    else Some(RowSet(KeysAfter(rows.value.keys, last), RangesAfter(rows.value.ranges, last)))
  }

  lemma RangeAfterExact(r: RowRange, last: Key, k: Key)
    ensures (EndsAfter(r, last) && Starts(StartAfter(r, last).start, k) && Ends(r.end, k)) <==>
            (Starts(r.start, k) && Ends(r.end, k) && Below(last, k))
  {
    KeysTotal(last, k);
    KeysTotal(k, last);
    if r.start != StartAny {
      var a := r.start.at;
      KeysTotal(a, last); KeysTotal(last, a); KeysTotal(a, k); KeysTotal(k, a);
      if Below(a, last) && Below(last, k) { KeysTransitive(a, last, k); }
      if Below(last, a) && Below(a, k) { KeysTransitive(last, a, k); }
    }
    if r.end != EndAny {
      var b := r.end.at;
      KeysTotal(b, last); KeysTotal(last, b); KeysTotal(b, k); KeysTotal(k, b);
      if Below(last, k) && Below(k, b) { KeysTransitive(last, k, b); }
    }
  }

  /** The narrowed request asks for exactly the requested keys after the last one read. */
  lemma ClampExact(rows: Option<RowSet>, last: Key, k: Key)
    ensures Asks(ClampForward(rows, last), k) <==> Asks(rows, k) && Below(last, k)
  {
    if rows.Some? {
      KeysAfterAre(rows.value.keys, last);
      RangesAfterAre(rows.value.ranges, last);
      forall r | r in rows.value.ranges
        ensures (EndsAfter(r, last) && Starts(StartAfter(r, last).start, k) && Ends(r.end, k)) <==>
                (Starts(r.start, k) && Ends(r.end, k) && Below(last, k))
      {
        RangeAfterExact(r, last, k);
      }
    }
  }

  /** Narrowing a valid request fails exactly if nothing of it is left: every key
      and the end of every range have been passed. */
  lemma ClampValid(rows: Option<RowSet>, last: Key)
    requires ValidateRequestRows(rows)
    ensures !ValidateRequestRows(ClampForward(rows, last)) <==>
            rows.Some? && (forall k <- rows.value.keys :: !Below(last, k)) && (forall r <- rows.value.ranges :: !EndsAfter(r, last))
  {
    if rows.Some? {
      KeysAfterAre(rows.value.keys, last);
      RangesAfterAre(rows.value.ranges, last);
      var ranges := RangesAfter(rows.value.ranges, last);
      forall x | x in ranges ensures ValidRange(x) {
        var y :| y in rows.value.ranges && EndsAfter(y, last) && x == StartAfter(y, last);
      }
      if ranges != [] { assert ranges[0] in ranges; }
      var keys := KeysAfter(rows.value.keys, last);
      if keys != [] { assert keys[0] in keys; }
    }
  }

  method RetainKeys(keys: seq<Key>, last: Key) returns (r: seq<Key>)
    ensures r == KeysAfter(keys, last)
  {
    r := [];
    for i := 0 to |keys|
      invariant r + KeysAfter(keys[i..], last) == KeysAfter(keys, last)
    {
      assert keys[i..][1..] == keys[i + 1..];
      ghost var rest := KeysAfter(keys[i + 1..], last);
      assert r + ([keys[i]] + rest) == r + [keys[i]] + rest;
      if Below(last, keys[i]) { r := r + [keys[i]]; }
    }
  }

  method ClampRanges(ranges: seq<RowRange>, last: Key) returns (r: seq<RowRange>)
    ensures r == RangesAfter(ranges, last)
  {
    r := [];
    for i := 0 to |ranges|
      invariant r + RangesAfter(ranges[i..], last) == RangesAfter(ranges, last)
    {
      assert ranges[i..][1..] == ranges[i + 1..];
      var range := ranges[i];
      if EndsAfter(range, last) {
        if range.start == StartAny || !Below(last, range.start.at) { range := range.(start := StartOpen(last)); }
        r := r + [range];
      }
    }
  }

  /** Drops what has been passed, moves the starts of the ranges left, and checks the result; none where that fails. */
  method ClampRowset(rows: Option<RowSet>, last: Key) returns (r: Option<Option<RowSet>>)
    ensures r == if ValidateRequestRows(ClampForward(rows, last)) then Some(ClampForward(rows, last)) else None
  {
    var clamped := Some(RowSet([], [RowRange(StartOpen(last), EndAny)]));
    if rows.Some? {
      var keys := RetainKeys(rows.value.keys, last);
      var ranges := ClampRanges(rows.value.ranges, last);
      clamped := Some(RowSet(keys, ranges));
    }
    return if ValidateRequestRows(clamped) then Some(clamped) else None;
  }

  // ---- Delivering rows ----

  datatype Request = Request(rows: Option<RowSet>, reversed: bool)

  /** What the caller has been given, and the key of the last row of it. */
  datatype Progress = Progress(last: Option<Key>, delivered: seq<Row>)

  /** Whether key `b` comes after key `a` in the direction of the read. */
  predicate Before(reversed: bool, a: Key, b: Key) {
    if reversed then Below(b, a) else Below(a, b)
  }

  function DeliverOne(p: Progress, reversed: bool, row: Row): Progress {
    if p.last.Some? && !Before(reversed, p.last.value, row.key) then p
    else Progress(Some(row.key), p.delivered + [row])
  }

  function Deliver(p: Progress, reversed: bool, rows: seq<Row>): Progress {
    if rows == [] then p else DeliverOne(Deliver(p, reversed, rows[..|rows| - 1]), reversed, rows[|rows| - 1])
  }

  /** What an attempt asks for. */
  function Narrowed(request: Request, last: Option<Key>): Option<RowSet> {
    if last.Some? && !request.reversed then ClampForward(request.rows, last.value) else request.rows
  }

  /** Whether the attempt can be made: only narrowed requests are checked again. */
  predicate CanAttempt(request: Request, last: Option<Key>) {
    ValidateRequestRows(Narrowed(request, last))
  }

  /** One attempt's loop over the chunks received, after which the stream has `ended` or broken off; `None` where
      decoding the chunks panics, or where the stream has ended within a row. */
  method Attempt(chunks: seq<CellChunk>, ended: bool, reversed: bool, before: Progress) returns (r: Option<Progress>)
    ensures var d := Decode(chunks, None);
            r == if d.Failed? || (ended && d.active.Some?) then None else Some(Deliver(before, reversed, d.rows))
  {
    var p, active := before, None;
    ghost var rows: seq<Row> := [];
    for i := 0 to |chunks|
      invariant Decode(chunks, None) == After(rows, Decode(chunks[i..], active))
      invariant p == Deliver(before, reversed, rows)
    {
      assert chunks[i..][1..] == chunks[i + 1..];
      match ProcessReadChunk(chunks[i], active) {
        case Panicked => return None;
        case Processed(next, complete) =>
          ghost var done := if complete.Some? then [complete.value] else [];
          AfterAfter(rows, done, Decode(chunks[i + 1..], next));
          active := next;
          if complete.Some? {
            p := DeliverOne(p, reversed, complete.value);
          } else {
            assert rows + done == rows;
          }
          rows := rows + done;
      }
    }
    assert rows + [] == rows;
    return if ended && active.Some? then None else Some(p);
  }

  // ---- The rows of a table ----

  predicate Ascending(rows: seq<Row>) {
    forall i, j :: 0 <= i < j < |rows| ==> Below(rows[i].key, rows[j].key)
  }

  function Filter(table: seq<Row>, rows: Option<RowSet>): seq<Row> {
    if table == [] then []
    else Filter(table[..|table| - 1], rows) + if Asks(rows, table[|table| - 1].key) then [table[|table| - 1]] else []
  }

  function Reverse(s: seq<Row>): (r: seq<Row>)
    ensures |r| == |s| && forall i :: 0 <= i < |s| ==> r[i] == s[|s| - 1 - i]
  {
    seq(|s|, i requires 0 <= i < |s| => s[|s| - 1 - i])
  }

  /** The rows a request asks for, in the order it asks for. */
  function Answer(table: seq<Row>, rows: Option<RowSet>, reversed: bool): seq<Row> {
    if reversed then Reverse(Filter(table, rows)) else Filter(table, rows)
  }

  predicate InOrder(rows: seq<Row>, reversed: bool) {
    forall i, j :: 0 <= i < j < |rows| ==> Before(reversed, rows[i].key, rows[j].key)
  }

  lemma {:induction false} FilterInOrder(table: seq<Row>, rows: Option<RowSet>)
    requires Ascending(table)
    ensures Ascending(Filter(table, rows))
    ensures forall r <- Filter(table, rows) :: r in table
  {
    if table != [] {
      var n := |table| - 1;
      FilterInOrder(table[..n], rows);
      forall r | r in Filter(table[..n], rows) ensures Below(r.key, table[n].key) {
        var i :| 0 <= i < n && table[..n][i] == r;
      }
    }
  }

  lemma AnswerInOrder(table: seq<Row>, request: Request)
    requires Ascending(table)
    ensures InOrder(Answer(table, request.rows, request.reversed), request.reversed)
  {
    FilterInOrder(table, request.rows);
  }

  function RowsAfter(rows: seq<Row>, last: Key): seq<Row> {
    if rows == [] then []
    else RowsAfter(rows[..|rows| - 1], last) + if Below(last, rows[|rows| - 1].key) then [rows[|rows| - 1]] else []
  }

  lemma {:induction false} NarrowedAnswer(table: seq<Row>, rows: Option<RowSet>, last: Key)
    ensures Filter(table, ClampForward(rows, last)) == RowsAfter(Filter(table, rows), last)
  {
    if table != [] {
      var n := |table| - 1;
      NarrowedAnswer(table[..n], rows, last);
      ClampExact(rows, last, table[n].key);
      var front := Filter(table[..n], rows);
      assert (front + [table[n]])[..|front|] == front;
      assert front + [] == front;
    }
  }

  lemma {:induction false} RowsAfterLast(full: seq<Row>, n: nat)
    requires Ascending(full) && 0 < n <= |full|
    ensures RowsAfter(full, full[n - 1].key) == full[n..]
    decreases |full|
  {
    var m := |full| - 1;
    KeysTotal(full[n - 1].key, full[m].key);
    if n == |full| {
      NoneAfter(full, full[n - 1].key);
    } else {
      RowsAfterLast(full[..m], n);
      assert full[..m][n - 1] == full[n - 1] && full[..m][n..] + [full[m]] == full[n..];
    }
  }

  lemma {:induction false} NoneAfter(rows: seq<Row>, last: Key)
    requires forall i :: 0 <= i < |rows| ==> rows[i].key == last || Below(rows[i].key, last)
    ensures RowsAfter(rows, last) == []
  {
    if rows != [] {
      NoneAfter(rows[..|rows| - 1], last);
      KeysTotal(rows[|rows| - 1].key, last);
      KeysTotal(last, rows[|rows| - 1].key);
    }
  }

  // ---- Reading with retries ----

  /** `n` rows of the answer have been delivered. */
  function At(full: seq<Row>, n: nat): Progress
    requires n <= |full|
  {
    Progress(if n == 0 then None else Some(full[n - 1].key), full[..n])
  }

  /** Rows up to the `n`-th are dropped as duplicates, those after it delivered. */
  lemma {:induction false} DeliverStretch(full: seq<Row>, reversed: bool, n: nat, a: nat, rows: seq<Row>)
    requires InOrder(full, reversed) && a <= n <= |full| && a + |rows| <= |full|
    requires forall i :: 0 <= i < |rows| ==> rows[i] == full[a + i]
    ensures Deliver(At(full, n), reversed, rows) == At(full, if n >= a + |rows| then n else a + |rows|)
    decreases |rows|
  {
    if rows != [] {
      var k := |rows| - 1;
      DeliverStretch(full, reversed, n, a, rows[..k]);
      DeliverNext(full, reversed, if n >= a + k then n else a + k, a + k);
    }
  }

  lemma DeliverNext(full: seq<Row>, reversed: bool, n: nat, i: nat)
    requires InOrder(full, reversed) && i <= n <= |full| && i < |full|
    ensures DeliverOne(At(full, n), reversed, full[i]) == At(full, if n > i then n else i + 1)
  {
    if n > i {
      KeysTotal(full[n - 1].key, full[i].key);
      KeysTotal(full[i].key, full[n - 1].key);
    } else {
      assert full[..i] + [full[i]] == full[..i + 1];
    }
  }

  /** An attempt: what the server sends, and how many chunks of it arrive. */
  datatype Try = Try(items: seq<Item>, received: nat)

  ghost predicate Answers(t: Try, rows: seq<Row>) {
    ValidStream(t.items) && RowsOf(t.items) == rows && t.received <= |Flatten(t.items)|
  }

  /** The attempt succeeds: everything arrives, and the last row is complete. */
  ghost predicate Succeeds(t: Try) {
    t.received == |Flatten(t.items)| && (t.items == [] || t.items[|t.items| - 1].whole)
  }

  /** A read of a table that does not change meanwhile: each attempt is answered
      with the rows it asks for, cut into chunks in any way and cut off anywhere. */
  ghost predicate IsRead(table: seq<Row>, request: Request, states: seq<Progress>, tries: seq<Try>) {
    && |states| == |tries| + 1 && states[0] == Progress(None, [])
    && forall i {:trigger tries[i]} :: 0 <= i < |tries| ==>
         && CanAttempt(request, states[i].last)
         && Answers(tries[i], Answer(table, Narrowed(request, states[i].last), request.reversed))
         && states[i + 1] == Deliver(states[i], request.reversed, Received(tries[i]))
  }

  /** The rows that arrive complete. */
  function Received(t: Try): seq<Row>
    requires t.received <= |Flatten(t.items)|
  {
    var d := Decode(Flatten(t.items)[..t.received], None);
    if d.Failed? then [] else d.rows
  }

  /** An attempt is answered with a stretch of the full answer that begins no later than where the read stands. */
  lemma AnswerIsStretch(table: seq<Row>, request: Request, n: nat) returns (a: nat)
    requires Ascending(table) && n <= |Answer(table, request.rows, request.reversed)|
    ensures var full := Answer(table, request.rows, request.reversed);
            a <= n && Answer(table, Narrowed(request, At(full, n).last), request.reversed) == full[a..]
  {
    var full := Answer(table, request.rows, request.reversed);
    if request.reversed || n == 0 {
      a := 0;
    } else {
      a := n;
      FilterInOrder(table, request.rows);
      NarrowedAnswer(table, request.rows, full[n - 1].key);
      RowsAfterLast(full, n);
    }
  }

  lemma ReceivedIsPrefix(t: Try, rows: seq<Row>)
    requires Answers(t, rows)
    ensures Received(t) <= rows && (Succeeds(t) ==> Received(t) == rows)
  {
    CutStreamDecodes(t.items, t.received);
    if Succeeds(t) {
      StreamDecodes(t.items);
      assert Flatten(t.items)[..t.received] == Flatten(t.items);
    }
  }

  lemma TryAdvances(table: seq<Row>, request: Request, full: seq<Row>, n: nat, t: Try) returns (m: nat)
    requires Ascending(table) && full == Answer(table, request.rows, request.reversed) && n <= |full|
    requires Answers(t, Answer(table, Narrowed(request, At(full, n).last), request.reversed))
    ensures n <= m <= |full| && (Succeeds(t) ==> m == |full|)
    ensures Deliver(At(full, n), request.reversed, Received(t)) == At(full, m)
  {
    var a := AnswerIsStretch(table, request, n);
    AnswerInOrder(table, request);
    var rows := Received(t);
    assert rows <= full[a..] && (Succeeds(t) ==> rows == full[a..]) by { ReceivedIsPrefix(t, full[a..]); }
    DeliverStretch(full, request.reversed, n, a, rows);
    m := if n >= a + |rows| then n else a + |rows|;
  }

  /** At every point of a read with retries, what has been delivered is the
      first rows of the answer, each once and in order; once an attempt has
      succeeded, it is the whole answer. */
  lemma {:induction false} RetriedRead(table: seq<Row>, request: Request, full: seq<Row>, states: seq<Progress>, tries: seq<Try>, i: nat)
    returns (n: nat)
    requires Ascending(table) && full == Answer(table, request.rows, request.reversed)
    requires IsRead(table, request, states, tries) && i < |states|
    ensures n <= |full| && states[i] == At(full, n)
    ensures i > 0 && Succeeds(tries[i - 1]) ==> states[i].delivered == full
  {
    if i == 0 {
      n := 0;
    } else {
      var m := RetriedRead(table, request, full, states, tries, i - 1);
      var t := tries[i - 1];
      n := TryAdvances(table, request, full, m, t);
      assert full[..|full|] == full;
    }
  }

  /** An attempt whose answer arrives to its end panics exactly if the server has ended it within a row; one
      that breaks off never does. */
  lemma EndedAttempt(t: Try, rows: seq<Row>)
    requires Answers(t, rows)
    ensures var d := Decode(Flatten(t.items)[..t.received], None);
            d.Decoded? && (t.received == |Flatten(t.items)| ==> (d.active.None? <==> Succeeds(t)))
  {
    CutStreamDecodes(t.items, t.received);
    if t.received == |Flatten(t.items)| {
      assert Flatten(t.items)[..t.received] == Flatten(t.items);
      StreamDecodes(t.items);
    }
  }

  /** A forward read of one key that breaks off after the row has arrived cannot be retried. */
  lemma RetryAfterLastRowPanics(key: Key)
    ensures var request := Request(Some(RowSet([key], [])), false);
            ValidateRequestRows(request.rows) && !CanAttempt(request, Some(key))
  {
    KeysTotal(key, key);
    ClampValid(Some(RowSet([key], [])), key);
  }
}

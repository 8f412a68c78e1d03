/**
 * Copying one table from SQLite to PostgreSQL so that an interrupted copy can be resumed: a sweep
 * over row ids in two directions, whose progress marker commits together with the rows.
 */
module TablePort {
  import opened Common

  // ----- rows and their conversion -----

  datatype Cell = Text(s: string) | Bytes(b: seq<int>) | Number(n: int) | Bool(t: bool) | NoValue

  datatype Row = Row(id: int, cells: seq<Cell>)

  predicate Truthy(cell: Cell) {
    match cell
    case Text(s) => s != ""
    case Bytes(b) => b != []
    case Number(n) => n != 0
    case Bool(t) => t
    case NoValue => false
  }

  /** One column of one row; None for text PostgreSQL cannot hold. */
  function ConvertCell(isBool: bool, cell: Cell): Option<Cell> {
    if isBool then Some(Bool(Truthy(cell)))
    else if cell.Text? && '\0' in cell.s then None
    else Some(cell)
  }

  predicate Convertible(boolCols: set<nat>, row: Row) {
    forall j :: 0 <= j < |row.cells| ==> ConvertCell(j in boolCols, row.cells[j]).Some?
  }

  function ConvertRow(boolCols: set<nat>, row: Row): seq<Cell>
    requires Convertible(boolCols, row)
  {
    seq(|row.cells|, j requires 0 <= j < |row.cells| => ConvertCell(j in boolCols, row.cells[j]).value)
  }

  /** The converted rows in order, those that cannot be converted dropped. */
  function Convert(boolCols: set<nat>, rows: seq<Row>): seq<seq<Cell>> {
    if rows == [] then []
    else
      var front, row := Convert(boolCols, rows[..|rows| - 1]), rows[|rows| - 1];
      if Convertible(boolCols, row) then front + [ConvertRow(boolCols, row)] else front
  }

  /** A row converts exactly when no text outside its boolean columns holds a NUL. */
  lemma ConvertibleExactly(boolCols: set<nat>, row: Row)
    ensures Convertible(boolCols, row) <==>
            forall j :: 0 <= j < |row.cells| && j !in boolCols && row.cells[j].Text? ==> '\0' !in row.cells[j].s
  {}

  /** A converted row keeps every other cell, and has in a boolean column whether the cell is something. */
  lemma ConvertedCells(boolCols: set<nat>, row: Row, j: nat)
    requires Convertible(boolCols, row) && j < |row.cells|
    ensures |ConvertRow(boolCols, row)| == |row.cells|
    ensures j !in boolCols ==> ConvertRow(boolCols, row)[j] == row.cells[j]
    ensures j in boolCols ==>
              ConvertRow(boolCols, row)[j] ==
              Bool(match row.cells[j]
                   case Number(n) => n < 0 || 0 < n
                   case Bool(t) => t
                   case Text(s) => 0 < |s|
                   case Bytes(b) => 0 < |b|
                   case NoValue => false)
  {}

  /** A single row is converted or dropped; with ConvertAppend this says what becomes of any rows. */
  lemma ConvertOne(boolCols: set<nat>, row: Row)
    ensures Convert(boolCols, [row]) == if Convertible(boolCols, row) then [ConvertRow(boolCols, row)] else []
  {
    assert [row][..0] == [];
  }

  /** Where every row converts, none is lost and each keeps its place. */
  lemma {:induction false} ConvertAll(boolCols: set<nat>, rows: seq<Row>)
    requires forall i :: 0 <= i < |rows| ==> Convertible(boolCols, rows[i])
    ensures |Convert(boolCols, rows)| == |rows|
    ensures forall i :: 0 <= i < |rows| ==> Convert(boolCols, rows)[i] == ConvertRow(boolCols, rows[i])
  {
    if rows != [] {
      ConvertAll(boolCols, rows[..|rows| - 1]);
    }
  }

  /** No text outside the boolean columns holds a NUL. */
  predicate NoNulls(boolCols: set<nat>, rows: seq<Row>) {
    forall i, j :: 0 <= i < |rows| && 0 <= j < |rows[i].cells| && j !in boolCols && rows[i].cells[j].Text? ==> '\0' !in rows[i].cells[j].s
  }

  /** _convert_rows as the source runs it. */
  method ConvertRows(boolCols: set<nat>, rows: seq<Row>) returns (out: seq<seq<Cell>>)
    ensures out == Convert(boolCols, rows)
  {
    out := [];
    for i := 0 to |rows|
      invariant out == Convert(boolCols, rows[..i])
    {
      var cells: seq<Cell> := [];
      var bad := false;
      for j := 0 to |rows[i].cells|
        invariant bad <==> exists k :: 0 <= k < j && ConvertCell(k in boolCols, rows[i].cells[k]).None?
        invariant !bad ==> |cells| == j && forall k :: 0 <= k < j ==> Some(cells[k]) == ConvertCell(k in boolCols, rows[i].cells[k])
      {
        var converted := ConvertCell(j in boolCols, rows[i].cells[j]);
        if converted.None? {
          bad := true;
        } else if !bad {
          cells := cells + [converted.value];
        }
      }
      assert rows[..i + 1][..i] == rows[..i];
      if !bad {
        assert cells == ConvertRow(boolCols, rows[i]);
        out := out + [cells];
      }
    }
    assert rows[..|rows|] == rows;
  }

  lemma {:induction false} ConvertAppend(boolCols: set<nat>, a: seq<Row>, b: seq<Row>)
    ensures Convert(boolCols, a + b) == Convert(boolCols, a) + Convert(boolCols, b)
  {
    if b == [] {
      assert a + b == a;
    } else {
      var front := b[..|b| - 1];
      ConvertAppend(boolCols, a, front);
      assert (a + b)[..|a + b| - 1] == a + front;
    }
  }

  function Reverse<T>(s: seq<T>): seq<T> {
    if s == [] then [] else Reverse(s[1..]) + [s[0]]
  }

  lemma {:induction false} ReverseAt<T>(s: seq<T>, i: nat)
    ensures |Reverse(s)| == |s|
    ensures i < |s| ==> Reverse(s)[i] == s[|s| - 1 - i]
  {
    if s != [] {
      ReverseAt(s[1..], i);
    }
  }

  lemma {:induction false} ConvertReverse(boolCols: set<nat>, rows: seq<Row>)
    ensures multiset(Convert(boolCols, Reverse(rows))) == multiset(Convert(boolCols, rows))
  {
    if rows != [] {
      ConvertReverse(boolCols, rows[1..]);
      ConvertAppend(boolCols, Reverse(rows[1..]), [rows[0]]);
      ConvertAppend(boolCols, [rows[0]], rows[1..]);
      assert [rows[0]] + rows[1..] == rows;
    }
  }

  // ----- selecting by row id -----

  /** A table as SQLite keeps it: in strictly increasing order of row id. */
  predicate ByRowId(rows: seq<Row>) {
    forall i, j :: 0 <= i < j < |rows| ==> rows[i].id < rows[j].id
  }

  /** The order of a table is that of each row and the next. */
  lemma {:induction false} ByRowIdExactly(rows: seq<Row>)
    ensures ByRowId(rows) <==> forall i :: 0 < i < |rows| ==> rows[i - 1].id < rows[i].id
  {
    if |rows| > 1 && forall i :: 0 < i < |rows| ==> rows[i - 1].id < rows[i].id {
      var n := |rows| - 1;
      ByRowIdExactly(rows[..n]);
      assert forall i :: 0 < i < n ==> rows[..n][i - 1].id < rows[..n][i].id;
      forall i, j | 0 <= i < j < |rows| ensures rows[i].id < rows[j].id {
        if j == n && i < n - 1 {
          assert rows[..n][i].id < rows[..n][n - 1].id;
        } else if j < n {
          assert rows[..n][i].id < rows[..n][j].id;
        }
      }
    }
  }

  /** How many rows have an id below `id`. */
  function Below(rows: seq<Row>, id: int): (k: nat)
    ensures k <= |rows|
  {
    if rows == [] then 0
    else if rows[|rows| - 1].id < id then |rows|
    else Below(rows[..|rows| - 1], id)
  }

  lemma {:induction false} BelowSplits(rows: seq<Row>, id: int)
    requires ByRowId(rows)
    ensures forall i :: 0 <= i < |rows| ==> (rows[i].id < id <==> i < Below(rows, id))
  {
    if rows != [] && rows[|rows| - 1].id >= id {
      BelowSplits(rows[..|rows| - 1], id);
    }
  }

  /** SQL's LIMIT in SQLite: a negative limit is none at all. */
  function Limited(available: nat, limit: int): nat {
    if 0 <= limit < available then limit else available
  }

  /** SELECT ... WHERE rowid >= id ORDER BY rowid LIMIT limit. */
  function SelectForward(rows: seq<Row>, id: int, limit: int): seq<Row> {
    var k := Below(rows, id);
    rows[k..k + Limited(|rows| - k, limit)]
  }

  /** SELECT ... WHERE rowid <= id ORDER BY rowid DESC LIMIT limit. */
  function SelectBackward(rows: seq<Row>, id: int, limit: int): seq<Row> {
    var k := Below(rows, id + 1);
    Reverse(rows[k - Limited(k, limit)..k])
  }

  /** The rows with an id of at least `id`, in their order. */
  function From(rows: seq<Row>, id: int): seq<Row> {
    if rows == [] then []
    else From(rows[..|rows| - 1], id) + if id <= rows[|rows| - 1].id then [rows[|rows| - 1]] else []
  }

  lemma BelowAllOf(rows: seq<Row>, id: int, last: int)
    requires ByRowId(rows) && last < id && forall i :: 0 <= i < |rows| ==> rows[i].id < last
    ensures Below(rows, id) == |rows|
  {
    BelowSplits(rows, id);
  }

  lemma {:induction false} FromIsRest(rows: seq<Row>, id: int)
    requires ByRowId(rows)
    ensures From(rows, id) == rows[Below(rows, id)..]
  {
    if rows != [] {
      var front := rows[..|rows| - 1];
      FromIsRest(front, id);
      BelowSplits(rows, id);
      BelowSplits(front, id);
      if rows[|rows| - 1].id >= id {
        assert rows[Below(rows, id)..] == front[Below(front, id)..] + [rows[|rows| - 1]];
      } else {
        BelowAllOf(front, id, rows[|rows| - 1].id);
      }
    }
  }

  /** The rows with an id of at most `id`, in their order. */
  function UpTo(rows: seq<Row>, id: int): seq<Row> {
    if rows == [] then []
    else (if rows[0].id <= id then [rows[0]] else []) + UpTo(rows[1..], id)
  }

  lemma BelowNoneOf(rows: seq<Row>, id: int, first: int)
    requires ByRowId(rows) && id <= first && forall i :: 0 <= i < |rows| ==> first < rows[i].id
    ensures Below(rows, id) == 0
  {
    BelowSplits(rows, id);
  }

  lemma BelowStarts(rows: seq<Row>, id: int)
    requires ByRowId(rows) && rows != [] && rows[0].id <= id
    ensures Below(rows, id + 1) == Below(rows[1..], id + 1) + 1
  {
    var rest := rows[1..];
    BelowSplits(rows, id + 1);
    BelowSplits(rest, id + 1);
    var k, m := Below(rows, id + 1), Below(rest, id + 1);
    assert k > 0;
    assert m < |rest| ==> rest[m] == rows[m + 1] && !(rows[m + 1].id < id + 1);
    assert k < |rows| ==> rows[k] == rest[k - 1] && !(rest[k - 1].id < id + 1);
  }

  lemma {:induction false} UpToIsFirst(rows: seq<Row>, id: int)
    requires ByRowId(rows)
    ensures UpTo(rows, id) == rows[..Below(rows, id + 1)]
  {
    if rows != [] {
      var rest := rows[1..];
      UpToIsFirst(rest, id);
      BelowSplits(rows, id + 1);
      BelowSplits(rest, id + 1);
      var k, m := Below(rows, id + 1), Below(rest, id + 1);
      if rows[0].id <= id {
        assert m < |rest| ==> rows[m + 1] == rest[m];
        assert m > 0 ==> rows[m] == rest[m - 1];
        BelowStarts(rows, id);
        assert rows[..k] == [rows[0]] + rest[..m];
      } else {
        BelowNoneOf(rest, id + 1, rows[0].id);
      }
    }
  }

  /** The first `limit` elements, or all of them where that is negative or too much. */
  function Taken<T>(s: seq<T>, limit: int): seq<T> {
    if limit < 0 || |s| <= limit then s else s[..limit]
  }

  lemma ReverseTaken<T>(s: seq<T>, n: nat)
    requires n <= |s|
    ensures |Reverse(s)| == |s| && Reverse(s[|s| - n..]) == Reverse(s)[..n]
  {
    var tail := s[|s| - n..];
    ReverseAt(s, 0);
    ReverseAt(tail, 0);
    forall i | 0 <= i < n ensures Reverse(tail)[i] == Reverse(s)[i] {
      ReverseAt(s, i);
      ReverseAt(tail, i);
    }
  }

  /** The two queries give the first rows from the marker on, outwards, up to the limit. */
  lemma BatchesExactly(rows: seq<Row>, id: int, limit: int)
    requires ByRowId(rows)
    ensures SelectForward(rows, id, limit) == Taken(From(rows, id), limit)
    ensures SelectBackward(rows, id, limit) == Taken(Reverse(UpTo(rows, id)), limit)
  {
    hide Below, From, UpTo, Reverse, ByRowId;
    FromIsRest(rows, id);
    UpToIsFirst(rows, id);
    var k := Below(rows, id + 1);
    var n := Limited(k, limit);
    ReverseTaken(rows[..k], n);
    assert rows[..k][k - n..] == rows[k - n..k];
    var f := Below(rows, id);
    assert rows[f..][..Limited(|rows| - f, limit)] == rows[f..f + Limited(|rows| - f, limit)];
  }

  lemma BelowMonotone(rows: seq<Row>, a: int, b: int)
    requires ByRowId(rows) && a <= b
    ensures Below(rows, a) <= Below(rows, b)
  {
    BelowSplits(rows, a);
    BelowSplits(rows, b);
    var k := Below(rows, b);
    assert k < |rows| ==> b <= rows[k].id;
  }

  /** The rows with an id strictly between the two markers. */
  function Strictly(rows: seq<Row>, backward: int, forward: int): seq<Row>
    requires backward < forward && ByRowId(rows)
  {
    assert Below(rows, backward + 1) <= Below(rows, forward) by { BelowMonotone(rows, backward + 1, forward); }
    rows[Below(rows, backward + 1)..Below(rows, forward)]
  }

  lemma BelowIs(rows: seq<Row>, id: int, k: nat)
    requires ByRowId(rows) && k <= |rows|
    requires k > 0 ==> rows[k - 1].id < id
    requires k < |rows| ==> id <= rows[k].id
    ensures Below(rows, id) == k
  {
    BelowSplits(rows, id);
  }

  // ----- the markers after a batch -----

  function MaxId(rows: seq<Row>): int
    requires rows != []
  {
    if |rows| == 1 then rows[0].id
    else
      var m := MaxId(rows[..|rows| - 1]);
      if rows[|rows| - 1].id > m then rows[|rows| - 1].id else m
  }

  function MinId(rows: seq<Row>): int
    requires rows != []
  {
    if |rows| == 1 then rows[0].id
    else
      var m := MinId(rows[..|rows| - 1]);
      if rows[|rows| - 1].id < m then rows[|rows| - 1].id else m
  }

  lemma {:induction false} MaxOfAscending(rows: seq<Row>)
    requires rows != [] && ByRowId(rows)
    ensures MaxId(rows) == rows[|rows| - 1].id
  {
    if |rows| > 1 {
      MaxOfAscending(rows[..|rows| - 1]);
    }
  }

  predicate Descending(rows: seq<Row>) {
    forall i, j :: 0 <= i < j < |rows| ==> rows[i].id > rows[j].id
  }

  lemma {:induction false} MinOfDescending(rows: seq<Row>)
    requires rows != [] && Descending(rows)
    ensures MinId(rows) == rows[|rows| - 1].id
  {
    if |rows| > 1 {
      MinOfDescending(rows[..|rows| - 1]);
    }
  }

  lemma ReverseDescends(rows: seq<Row>)
    requires ByRowId(rows)
    ensures Descending(Reverse(rows))
  {
    forall i, j | 0 <= i < j < |Reverse(rows)| ensures Reverse(rows)[i].id > Reverse(rows)[j].id {
      ReverseAt(rows, i);
      ReverseAt(rows, j);
    }
  }

  lemma SplitAt(rows: seq<Row>, id: int, i: nat)
    requires ByRowId(rows) && i < |rows|
    ensures rows[i].id < id <==> i < Below(rows, id)
  {
    BelowSplits(rows, id);
  }

  lemma SliceByRowId(rows: seq<Row>, a: nat, b: nat)
    requires ByRowId(rows) && a <= b <= |rows|
    ensures ByRowId(rows[a..b])
  {}

  lemma IdsAscend(rows: seq<Row>, i: nat, j: nat)
    requires ByRowId(rows) && i <= j < |rows|
    ensures rows[i].id <= rows[j].id && (i < j ==> rows[i].id < rows[j].id)
  {}

  /** After a forward batch the marker stands just past the rows it took. */
  lemma ForwardAdvances(rows: seq<Row>, forward: int, limit: int, batch: seq<Row>, forward': int)
    requires ByRowId(rows) && batch == SelectForward(rows, forward, limit) && batch != [] && forward' == MaxId(batch) + 1
    ensures forward < forward' && Below(rows, forward') == Below(rows, forward) + |batch|
  {
    hide Below, MaxId, ByRowId;
    var k := Below(rows, forward);
    var end := k + |batch|;
    SliceByRowId(rows, k, end);
    assert batch == rows[k..end];
    MaxOfAscending(batch);
    assert batch[|batch| - 1] == rows[end - 1];
    SplitAt(rows, forward, end - 1);
    if end < |rows| {
      IdsAscend(rows, end - 1, end);
    }
    BelowIs(rows, rows[end - 1].id + 1, end);
  }

  lemma MinOfReversed(rows: seq<Row>)
    requires rows != [] && ByRowId(rows)
    ensures Reverse(rows) != [] && MinId(Reverse(rows)) == rows[0].id
  {
    ReverseAt(rows, |rows| - 1);
    ReverseDescends(rows);
    MinOfDescending(Reverse(rows));
  }

  /** After a backward batch the marker stands just before the rows it took. */
  lemma BackwardAdvances(rows: seq<Row>, backward: int, limit: int, batch: seq<Row>, backward': int)
    requires ByRowId(rows) && batch == SelectBackward(rows, backward, limit) && batch != [] && backward' == MinId(batch) - 1
    ensures backward' < backward && Below(rows, backward' + 1) == Below(rows, backward + 1) - |batch|
  {
    hide Below, Reverse, MinId, ByRowId;
    var k := Below(rows, backward + 1);
    var taken := rows[k - Limited(k, limit)..k];
    ReverseAt(taken, |taken|);
    var start := k - |batch|;
    SliceByRowId(rows, start, k);
    assert taken != [] && taken[0] == rows[start];
    MinOfReversed(taken);
    SplitAt(rows, backward + 1, start);
    if start > 0 {
      IdsAscend(rows, start - 1, start);
    }
    BelowIs(rows, rows[start].id, start);
  }

  /** A batch in each direction extends the copied stretch at both ends. */
  lemma StretchGrows(boolCols: set<nat>, below: seq<Row>, mid: seq<Row>, above: seq<Row>, brows: seq<Row>, whole: seq<Row>)
    requires brows == Reverse(below) && whole == below + mid + above
    ensures multiset(Convert(boolCols, mid) + Convert(boolCols, above + brows)) == multiset(Convert(boolCols, whole))
  {
    ConvertAppend(boolCols, below + mid, above);
    ConvertAppend(boolCols, below, mid);
    ConvertAppend(boolCols, above, brows);
    ConvertReverse(boolCols, below);
    hide Convert, Reverse;
  }

  lemma ThreeSlices(rows: seq<Row>, a: nat, b: nat, c: nat, d: nat)
    requires a <= b <= c <= d <= |rows|
    ensures rows[a..d] == rows[a..b] + rows[b..c] + rows[c..d]
  {}

  /** Where a batch lies in the table: just above and just below the copied stretch. */
  lemma ForwardPlace(rows: seq<Row>, limit: int, forward: int, frows: seq<Row>)
    requires frows == [] || frows == SelectForward(rows, forward, limit)
    ensures var hi := Below(rows, forward); hi + |frows| <= |rows| && frows == rows[hi..hi + |frows|]
  {}

  lemma BackwardPlace(rows: seq<Row>, limit: int, backward: int, brows: seq<Row>)
    requires brows == [] || brows == SelectBackward(rows, backward, limit)
    ensures var lo := Below(rows, backward + 1); |brows| <= lo && brows == Reverse(rows[lo - |brows|..lo])
  {
    var lo := Below(rows, backward + 1);
    ReverseAt(rows[lo - Limited(lo, limit)..lo], 0);
    assert rows[lo..lo] == [];
  }

  /** The markers move by exactly the batch. */
  lemma MarkersMove(rows: seq<Row>, limit: int, forward: int, backward: int,
                    frows: seq<Row>, brows: seq<Row>, forward': int, backward': int)
    requires ByRowId(rows) && backward < forward
    requires frows == [] || frows == SelectForward(rows, forward, limit)
    requires brows == [] || brows == SelectBackward(rows, backward, limit)
    requires forward' == if frows != [] then MaxId(frows) + 1 else forward
    requires backward' == if brows != [] then MinId(brows) - 1 else backward
    ensures backward' <= backward < forward <= forward'
    ensures Below(rows, forward') == Below(rows, forward) + |frows|
    ensures Below(rows, backward' + 1) == Below(rows, backward + 1) - |brows|
  {
    hide MaxId, MinId, Reverse, SelectForward, SelectBackward, ByRowId, Below;
    if frows != [] {
      ForwardAdvances(rows, forward, limit, frows, forward');
    }
    if brows != [] {
      BackwardAdvances(rows, backward, limit, brows, backward');
    }
  }

  lemma StrictlyIs(rows: seq<Row>, backward: int, forward: int, lo: nat, hi: nat)
    requires ByRowId(rows) && backward < forward && lo == Below(rows, backward + 1) && hi == Below(rows, forward) && lo <= hi
    ensures Strictly(rows, backward, forward) == rows[lo..hi]
  {}

  /** The copied stretch grows by exactly the batch. */
  lemma StretchMoves(rows: seq<Row>, boolCols: set<nat>, limit: int, forward: int, backward: int,
                     frows: seq<Row>, brows: seq<Row>, forward': int, backward': int)
    requires ByRowId(rows) && backward' <= backward < forward <= forward'
    requires frows == [] || frows == SelectForward(rows, forward, limit)
    requires brows == [] || brows == SelectBackward(rows, backward, limit)
    requires Below(rows, forward') == Below(rows, forward) + |frows|
    requires Below(rows, backward' + 1) == Below(rows, backward + 1) - |brows|
    ensures multiset(Convert(boolCols, Strictly(rows, backward, forward)) + Convert(boolCols, frows + brows)) ==
            multiset(Convert(boolCols, Strictly(rows, backward', forward')))
  {
    hide Convert, Reverse, SelectForward, SelectBackward, ByRowId, Below, Strictly;
    ForwardPlace(rows, limit, forward, frows);
    BackwardPlace(rows, limit, backward, brows);
    BelowMonotone(rows, backward + 1, forward);
    var lo, hi := Below(rows, backward + 1), Below(rows, forward);
    var a, d := lo - |brows|, hi + |frows|;
    ThreeSlices(rows, a, lo, hi, d);
    StrictlyIs(rows, backward, forward, lo, hi);
    StrictlyIs(rows, backward', forward', a, d);
    StretchGrows(boolCols, rows[a..lo], Strictly(rows, backward, forward), frows, brows, Strictly(rows, backward', forward'));
  }

  /** `out` holds exactly the convertible rows strictly between the markers, each once. */
  ghost predicate Copied(rows: seq<Row>, boolCols: set<nat>, out: seq<seq<Cell>>, forward: int, backward: int) {
    ByRowId(rows) && backward < forward &&
    multiset(out) == multiset(Convert(boolCols, Strictly(rows, backward, forward)))
  }

  /** The rows outside the markers, still to be copied. */
  function Outside(rows: seq<Row>, forward: int, backward: int): nat {
    (|rows| - Below(rows, forward)) + Below(rows, backward + 1)
  }

  lemma SameRows<T>(a: seq<T>, b: seq<T>, more: seq<T>)
    requires multiset(a) == multiset(b)
    ensures multiset(a + more) == multiset(b + more)
  {}

  /** One transaction keeps the target exact and leaves less to copy. */
  lemma BatchCommits(rows: seq<Row>, boolCols: set<nat>, limit: int, out: seq<seq<Cell>>, forward: int, backward: int,
                     frows: seq<Row>, brows: seq<Row>, forward': int, backward': int)
    requires Copied(rows, boolCols, out, forward, backward) && (frows != [] || brows != [])
    requires frows == [] || frows == SelectForward(rows, forward, limit)
    requires brows == [] || brows == SelectBackward(rows, backward, limit)
    requires forward' == if frows != [] then MaxId(frows) + 1 else forward
    requires backward' == if brows != [] then MinId(brows) - 1 else backward
    ensures Copied(rows, boolCols, out + Convert(boolCols, frows + brows), forward', backward')
    ensures Outside(rows, forward', backward') < Outside(rows, forward, backward)
  {
    hide Convert, MaxId, MinId, Reverse, SelectForward, SelectBackward, ByRowId, Below, Strictly;
    MarkersMove(rows, limit, forward, backward, frows, brows, forward', backward');
    StretchMoves(rows, boolCols, limit, forward, backward, frows, brows, forward', backward');
    SameRows(out, Convert(boolCols, Strictly(rows, backward, forward)), Convert(boolCols, frows + brows));
  }

  lemma NothingOutside(rows: seq<Row>, boolCols: set<nat>, out: seq<seq<Cell>>, forward: int, backward: int)
    requires Copied(rows, boolCols, out, forward, backward) && Outside(rows, forward, backward) == 0
    ensures multiset(out) == multiset(Convert(boolCols, rows))
  {
    assert Strictly(rows, backward, forward) == rows;
  }

  lemma NothingSelected(rows: seq<Row>, limit: int, forward: int, backward: int)
    requires limit != 0
    ensures SelectForward(rows, forward, limit) == [] ==> Below(rows, forward) == |rows|
    ensures SelectBackward(rows, backward, limit) == [] ==> Below(rows, backward + 1) == 0
  {
    var k := Below(rows, backward + 1);
    ReverseAt(rows[k - Limited(k, limit)..k], 0);
  }

  lemma EmptyBatches(rows: seq<Row>, forward: int, backward: int)
    ensures SelectForward(rows, forward, 0) == [] && SelectBackward(rows, backward, 0) == []
  {
    var k := Below(rows, backward + 1);
    assert rows[k - Limited(k, 0)..k] == [];
  }

  lemma NoneBetweenStarts(rows: seq<Row>, boolCols: set<nat>)
    requires ByRowId(rows)
    ensures Copied(rows, boolCols, [], 1, 0)
  {
    assert Strictly(rows, 0, 1) == [];
  }

  // ----- the port of one table -----

  /** How an attempt at porting is cut short. */
  datatype Crash = InSetup | AfterBatches(n: nat)

  class Porter {
    const source: seq<Row>
    const boolCols: set<nat>
    const batchSize: int
    const appendOnly: bool

    /** What PostgreSQL holds: the rows, and the table's progress marker if any. */
    var rows: seq<seq<Cell>>
    var marker: Option<(int, int)>

    /** Committed at every moment: exactly the convertible rows strictly between the markers, each once. */
    ghost predicate Valid()
      reads this
    {
      && ByRowId(source)
      && (marker.None? ==> rows == [])
      && (marker.Some? ==> Copied(source, boolCols, rows, marker.value.0, marker.value.1))
    }

    /** The rows still to be copied. */
    ghost function Remaining(): nat
      requires marker.Some?
      reads this
    {
      Outside(source, marker.value.0, marker.value.1)
    }

    ghost predicate Complete()
      reads this
    {
      multiset(rows) == multiset(Convert(boolCols, source))
    }

    constructor (source: seq<Row>, boolCols: set<nat>, batchSize: int, appendOnly: bool)
      requires ByRowId(source)
      ensures this.source == source && this.boolCols == boolCols
      ensures this.batchSize == batchSize && this.appendOnly == appendOnly
      ensures Valid() && rows == [] && marker == None
    {
      this.source, this.boolCols, this.batchSize, this.appendOnly := source, boolCols, batchSize, appendOnly;
      rows, marker := [], None;
    }

    /** setup_table, possibly cut short between its two transactions. */
    method SetupTable(crash: bool)
      requires Valid()
      modifies this
      ensures Valid()
      ensures !crash ==> marker.Some?
      ensures appendOnly ==> rows == old(rows) && (old(marker).Some? ==> marker == old(marker))
      ensures !appendOnly ==> rows == []
    {
      if appendOnly {
        if marker.None? && !crash {
          NoneBetweenStarts(source, boolCols);
          marker := Some((1, 0));
        }
      } else {
        rows, marker := [], None;
        if !crash {
          NoneBetweenStarts(source, boolCols);
          marker := Some((1, 0));
        }
      }
    }

    lemma SweepDone(forward: int, backward: int)
      requires Valid() && marker == Some((forward, backward)) && batchSize != 0
      requires SelectForward(source, forward, batchSize) == [] && SelectBackward(source, backward, batchSize) == []
      ensures Complete()
    {
      NothingSelected(source, batchSize, forward, backward);
      NothingOutside(source, boolCols, rows, forward, backward);
    }

    /** One transaction: the rows and the markers move together. */
    method CommitBatch(forward: int, backward: int, frows: seq<Row>, brows: seq<Row>) returns (forward': int, backward': int)
      requires Valid() && marker == Some((forward, backward)) && (frows != [] || brows != [])
      requires frows == [] || frows == SelectForward(source, forward, batchSize)
      requires brows == [] || brows == SelectBackward(source, backward, batchSize)
      modifies this
      ensures Valid() && marker == Some((forward', backward'))
      ensures Remaining() < old(Remaining())
      ensures rows == old(rows) + Convert(boolCols, frows + brows)
      ensures frows == [] ==> forward' == forward
      ensures brows == [] ==> backward' == backward
    {
      hide Copied, Outside, SelectForward, SelectBackward, Below, Convert, ByRowId, MaxId, MinId;
      forward' := if frows != [] then MaxId(frows) + 1 else forward;
      backward' := if brows != [] then MinId(brows) - 1 else backward;
      var converted := ConvertRows(boolCols, frows + brows);
      BatchCommits(source, boolCols, batchSize, rows, forward, backward, frows, brows, forward', backward');
      rows, marker := rows + converted, Some((forward', backward'));
    }

    /**
     * handle_table, stopping early after `budget` transactions when one is given. A finished sweep
     * has copied everything, unless batches are empty.
     */
    method HandleTable(budget: Option<nat>) returns (finished: bool)
      requires Valid() && marker.Some?
      modifies this
      ensures Valid() && marker.Some?
      ensures finished && batchSize != 0 ==> Complete()
      ensures batchSize == 0 ==> rows == old(rows) && marker == old(marker)
      ensures !finished ==> budget.Some? && Remaining() + budget.value <= old(Remaining())
      ensures budget.None? ==> finished
    {
      var (forward, backward) := marker.value;
      if |rows| + Outside(source, forward, backward) == 0 {
        NothingOutside(source, boolCols, rows, forward, backward);
        return true;
      }
      hide Copied, Outside, SelectForward, SelectBackward, Below, Convert, ByRowId;
      var doForward, doBackward := true, true;
      var done := 0;
      while true
        invariant Valid() && marker == Some((forward, backward))
        invariant !doForward ==> SelectForward(source, forward, batchSize) == []
        invariant !doBackward ==> SelectBackward(source, backward, batchSize) == []
        invariant batchSize == 0 ==> rows == old(rows) && marker == old(marker)
        invariant Remaining() + done <= old(Remaining())
        invariant budget.Some? ==> done <= budget.value
        decreases Remaining()
      {
        var frows: seq<Row>, brows: seq<Row> := [], [];
        if doForward {
          frows := SelectForward(source, forward, batchSize);
          doForward := frows != [];
        }
        if doBackward {
          brows := SelectBackward(source, backward, batchSize);
          doBackward := brows != [];
        }
        if frows == [] && brows == [] {
          if batchSize != 0 {
            SweepDone(forward, backward);
          }
          return true;
        }
        EmptyBatches(source, forward, backward);
        if budget.Some? && done == budget.value {
          return false;
        }
        forward, backward := CommitBatch(forward, backward, frows, brows);
        done := done + 1;
      }
    }

    /**
     * Exactly once across crashes: whatever sequence of interrupted attempts comes first, a final
     * attempt left to run ends, with every convertible source row in the table exactly once. With
     * empty batches it copies nothing, which is complete only when no source row converts.
     */
    method Port(crashes: seq<Crash>)
      requires Valid()
      modifies this
      ensures Valid() && (batchSize != 0 ==> Complete())
      ensures batchSize != 0 && NoNulls(boolCols, source) ==> |rows| == |source|
      ensures batchSize == 0 && old(rows) == [] ==> rows == [] && (Complete() <==> Convert(boolCols, source) == [])
    {
      for i := 0 to |crashes|
        invariant Valid()
        invariant batchSize == 0 && old(rows) == [] ==> rows == []
      {
        SetupTable(crashes[i].InSetup?);
        if crashes[i].AfterBatches? {
          var _ := HandleTable(Some(crashes[i].n));
        }
      }
      SetupTable(false);
      var _ := HandleTable(None);
      assert |multiset(Convert(boolCols, source))| == |Convert(boolCols, source)|;
      assert |multiset(rows)| == |rows|;
      if NoNulls(boolCols, source) {
        ConvertAll(boolCols, source);
      }
    }
  }
}

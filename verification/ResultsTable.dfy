/**
 The results table of the run view (ResultsModel::merge and clear of
 app/runview.cpp): rows in order of arrival, and an index from key to place.
 */
module ResultsTable {
  import opened RunModel
  import opened RunTheorems
  import opened Sequences

  /** RunRow::key of app/runtypes.h. */
  function Key(p: Pair): string {
    p.identity + "\n" + p.typ
  }

  /** The table, by key, after rows are taken in one at a time. */
  function Taken(table: map<string, Row>, changed: seq<Row>): map<string, Row>
    decreases |changed|
  {
    if changed == [] then table else Taken(table[Key(changed[0].pair) := changed[0]], changed[1..])
  }

  /** The keys in the order shown: a new key goes to the end, a known one stays in place. */
  function Placed(keys: seq<string>, changed: seq<Row>): seq<string>
    decreases |changed|
  {
    if changed == [] then keys
    else if Key(changed[0].pair) in keys then Placed(keys, changed[1..])
    else Placed(keys + [Key(changed[0].pair)], changed[1..])
  }

  function KeysOf(rows: seq<Row>): (keys: seq<string>)
    ensures |keys| == |rows| && forall i | 0 <= i < |rows| :: keys[i] == Key(rows[i].pair)
  {
    if rows == [] then [] else [Key(rows[0].pair)] + KeysOf(rows[1..])
  }

  /** The index sends every row's key to the row's place, and knows no other key. */
  ghost predicate Indexed(rows: seq<Row>, index: map<string, nat>) {
    && (forall k | k in index :: index[k] < |rows| && Key(rows[index[k]].pair) == k)
    && (forall i | 0 <= i < |rows| :: Key(rows[i].pair) in index && index[Key(rows[i].pair)] == i)
  }

  ghost function ByKey(rows: seq<Row>, index: map<string, nat>): map<string, Row>
    requires Indexed(rows, index)
  {
    map k | k in index :: rows[index[k]]
  }

  lemma {:induction false} ReplacedKeys(rows: seq<Row>, i: nat, row: Row)
    requires i < |rows| && Key(rows[i].pair) == Key(row.pair)
    ensures KeysOf(rows[i := row]) == KeysOf(rows)
  {
  }

  lemma {:induction false} ReplacedIndex(rows: seq<Row>, index: map<string, nat>, i: nat, row: Row)
    requires Indexed(rows, index) && i < |rows| && Key(rows[i].pair) == Key(row.pair)
    ensures Indexed(rows[i := row], index)
  {
  }

  lemma {:induction false} ReplacedTable(rows: seq<Row>, index: map<string, nat>, i: nat, row: Row)
    requires i < |rows| && Key(rows[i].pair) == Key(row.pair) && Indexed(rows, index) && Indexed(rows[i := row], index)
    ensures ByKey(rows[i := row], index) == ByKey(rows, index)[Key(row.pair) := row]
  {
    forall k | k in index
      ensures rows[i := row][index[k]] == if k == Key(row.pair) then row else rows[index[k]]
    {
    }
  }

  lemma {:induction false} Replaced(rows: seq<Row>, index: map<string, nat>, row: Row)
    requires Indexed(rows, index) && Key(row.pair) in index
    ensures var rows' := rows[index[Key(row.pair)] := row];
            && Indexed(rows', index) && ByKey(rows', index) == ByKey(rows, index)[Key(row.pair) := row]
            && KeysOf(rows') == KeysOf(rows)
  {
    var i := index[Key(row.pair)];
    ReplacedKeys(rows, i, row);
    ReplacedIndex(rows, index, i, row);
    ReplacedTable(rows, index, i, row);
  }

  lemma {:induction false} AppendedKeys(rows: seq<Row>, row: Row)
    ensures KeysOf(rows + [row]) == KeysOf(rows) + [Key(row.pair)]
  {
  }

  lemma {:induction false} AppendedIndex(rows: seq<Row>, index: map<string, nat>, row: Row)
    requires Indexed(rows, index) && Key(row.pair) !in index
    ensures Indexed(rows + [row], index[Key(row.pair) := |rows|])
  {
  }

  lemma {:induction false} Appended(rows: seq<Row>, index: map<string, nat>, row: Row)
    requires Indexed(rows, index) && Key(row.pair) !in index
    ensures Indexed(rows + [row], index[Key(row.pair) := |rows|])
    ensures ByKey(rows + [row], index[Key(row.pair) := |rows|]) == ByKey(rows, index)[Key(row.pair) := row]
  {
    AppendedIndex(rows, index, row);
  }

  lemma {:induction false} KnownKeys(rows: seq<Row>, index: map<string, nat>, k: string)
    requires Indexed(rows, index)
    ensures k in index <==> k in KeysOf(rows)
  {
    if k in index {
      assert KeysOf(rows)[index[k]] == k;
    }
  }

  class ResultsModel {
    var rows: seq<Row>
    var index: map<string, nat>

    ghost predicate Valid()
      reads this
    {
      Indexed(rows, index)
    }

    ghost function Table(): map<string, Row>
      requires Valid()
      reads this
    {
      ByKey(rows, index)
    }

    constructor ()
      ensures Valid() && rows == [] && Table() == map[]
    {
      rows := [];
      index := map[];
    }

    method Clear()
      modifies this
      ensures Valid() && rows == [] && Table() == map[]
    {
      rows := [];
      index := map[];
    }

    method Merge(changed: seq<Row>)
      requires Valid()
      modifies this
      ensures Valid() && Table() == Taken(old(Table()), changed)
      ensures KeysOf(rows) == Placed(KeysOf(old(rows)), changed)
    {
      for i := 0 to |changed|
        invariant Valid()
        invariant Taken(Table(), changed[i..]) == Taken(old(Table()), changed)
        invariant Placed(KeysOf(rows), changed[i..]) == Placed(KeysOf(old(rows)), changed)
      {
        Put(changed[i]);
        assert changed[i..][1..] == changed[i + 1..];
      }
    }

    method Put(row: Row)
      requires Valid()
      modifies this
      ensures Valid() && Table() == old(Table())[Key(row.pair) := row]
      ensures KeysOf(rows) == if Key(row.pair) in KeysOf(old(rows)) then KeysOf(old(rows))
                              else KeysOf(old(rows)) + [Key(row.pair)]
    {
      var key := Key(row.pair);
      KnownKeys(rows, index, key);
      if key in index {
        Replaced(rows, index, row);
        rows := rows[index[key] := row];
      } else {
        Appended(rows, index, row);
        AppendedKeys(rows, row);
        index := index[key := |rows|];
        rows := rows + [row];
      }
    }
  }

  // ----- keys and pairs

  /** With no line break in the types, two pairs share a key only if they are the same pair. */
  lemma {:induction false} KeyTellsPairs(p: Pair, q: Pair)
    requires '\n' !in p.typ && '\n' !in q.typ
    ensures Key(p) == Key(q) <==> p == q
  {
    if Key(p) == Key(q) {
      LineBreakOf(p, q);
      LineBreakOf(q, p);
      assert p.identity == Key(p)[..|p.identity|] && q.identity == Key(q)[..|q.identity|];
      assert p.typ == Key(p)[|p.identity| + 1..] && q.typ == Key(q)[|q.identity| + 1..];
    }
  }

  lemma {:induction false} LineBreakAt(p: Pair)
    ensures |p.identity| < |Key(p)| && Key(p)[|p.identity|] == '\n'
  {
  }

  lemma {:induction false} NoLineBreakAfter(q: Pair)
    requires '\n' !in q.typ
    ensures forall i | |q.identity| < i < |Key(q)| :: Key(q)[i] != '\n'
  {
    forall i | |q.identity| < i < |Key(q)|
      ensures Key(q)[i] != '\n'
    {
      assert Key(q)[i] == q.typ[i - |q.identity| - 1];
    }
  }

  lemma {:induction false} LineBreakOf(p: Pair, q: Pair)
    requires '\n' !in q.typ && Key(p) == Key(q)
    ensures |p.identity| <= |q.identity|
  {
    LineBreakAt(p);
    NoLineBreakAfter(q);
  }

  /** Only types keep pairs apart: with a line break in one, two devices can share a key. */
  lemma {:induction false} LineBreakMixesPairs()
    ensures Key(Pair("r1", "x\nconfig")) == Key(Pair("r1\nx", "config"))
  {
    assert "r1" + "\n" + "x\nconfig" == "r1\nx" + "\n" + "config";
  }

  // ----- the table shows the run

  /** The table shows exactly these rows. */
  ghost predicate Shows(table: map<string, Row>, rows: map<Pair, Row>) {
    && (forall p | p in rows :: Key(p) in table && table[Key(p)] == rows[p])
    && (forall k | k in table :: table[k].pair in rows && Key(table[k].pair) == k && rows[table[k].pair] == table[k])
  }

  ghost predicate WellNamed(rows: map<Pair, Row>) {
    forall p | p in rows :: rows[p].pair == p && '\n' !in p.typ
  }

  lemma {:induction false} ShowsOneMore(table: map<string, Row>, rows: map<Pair, Row>, row: Row)
    requires Shows(table, rows) && WellNamed(rows) && '\n' !in row.pair.typ
    ensures Shows(table[Key(row.pair) := row], rows[row.pair := row]) && WellNamed(rows[row.pair := row])
  {
    forall p | p in rows
      ensures Key(p) == Key(row.pair) <==> p == row.pair
    {
      KeyTellsPairs(p, row.pair);
    }
  }

  /** Taking rows in by key shows what merging them by pair gives. */
  lemma {:induction false} TakenShowsMerged(table: map<string, Row>, rows: map<Pair, Row>, changed: seq<Row>)
    requires Shows(table, rows) && WellNamed(rows) && forall i | 0 <= i < |changed| :: '\n' !in changed[i].pair.typ
    ensures Shows(Taken(table, changed), Merged(rows, changed))
    decreases |changed|
  {
    if changed != [] {
      ShowsOneMore(table, rows, changed[0]);
      TakenShowsMerged(table[Key(changed[0].pair) := changed[0]], rows[changed[0].pair := changed[0]], changed[1..]);
    }
  }

  // ----- in the order of the run

  function OrderKeys(pairs: seq<Pair>): (keys: seq<string>)
    ensures |keys| == |pairs| && forall i | 0 <= i < |pairs| :: keys[i] == Key(pairs[i])
  {
    if pairs == [] then [] else [Key(pairs[0])] + OrderKeys(pairs[1..])
  }

  lemma {:induction false} PlacedAppend(keys: seq<string>, a: seq<Row>, b: seq<Row>)
    ensures Placed(keys, a + b) == Placed(Placed(keys, a), b)
    decreases |a|
  {
    if a == [] {
      assert a + b == b;
    } else {
      assert (a + b)[1..] == a[1..] + b;
      PlacedAppend(if Key(a[0].pair) in keys then keys else keys + [Key(a[0].pair)], a[1..], b);
    }
  }

  lemma {:induction false} ChangedAppend(r: Run, a: seq<Pair>, b: seq<Pair>, since: nat)
    requires (forall p | p in a :: p in r.rows) && forall p | p in b :: p in r.rows
    ensures forall p | p in a + b :: p in r.rows
    ensures ChangedIn(r, a + b, since) == ChangedIn(r, a, since) + ChangedIn(r, b, since)
    decreases |a|
  {
    if a == [] {
      assert a + b == b;
    } else {
      assert (a + b)[1..] == a[1..] + b;
      ChangedAppend(r, a[1..], b, since);
    }
  }

  /** Rows shown already stay where they are. */
  lemma {:induction false} KnownStay(keys: seq<string>, r: Run, pairs: seq<Pair>, since: nat)
    requires Rowed(r) && forall p | p in pairs :: p in r.rows && Key(p) in keys
    ensures Placed(keys, ChangedIn(r, pairs, since)) == keys
    decreases |pairs|
  {
    if pairs != [] {
      KnownStay(keys, r, pairs[1..], since);
      if r.rows[pairs[0]].num > since {
        assert ChangedIn(r, pairs, since)[1..] == ChangedIn(r, pairs[1..], since);
      } else {
        assert ChangedIn(r, pairs, since) == ChangedIn(r, pairs[1..], since);
      }
    }
  }

  lemma {:induction false} RestApart(keys: seq<string>, pairs: seq<Pair>)
    requires pairs != [] && forall p | p in pairs :: Key(p) !in keys
    requires forall i, j | 0 <= i < j < |pairs| :: Key(pairs[i]) != Key(pairs[j])
    ensures forall p | p in pairs[1..] :: p in pairs && Key(p) !in keys + [Key(pairs[0])]
    ensures forall i, j | 0 <= i < j < |pairs[1..]| :: Key(pairs[1..][i]) != Key(pairs[1..][j])
  {
  }

  lemma {:induction false} PlacedNew(keys: seq<string>, row: Row, more: seq<Row>)
    requires Key(row.pair) !in keys
    ensures Placed(keys, [row] + more) == Placed(keys + [Key(row.pair)], more)
  {
    assert ([row] + more)[1..] == more;
  }

  /** New rows come behind them, one after the other. */
  lemma {:induction false} NewFollow(keys: seq<string>, r: Run, pairs: seq<Pair>, since: nat)
    requires Rowed(r) && (forall p | p in pairs :: p in r.rows && since < r.rows[p].num)
    requires forall p | p in pairs :: Key(p) !in keys
    requires forall i, j | 0 <= i < j < |pairs| :: Key(pairs[i]) != Key(pairs[j])
    ensures Placed(keys, ChangedIn(r, pairs, since)) == keys + OrderKeys(pairs)
    decreases |pairs|
  {
    if pairs != [] {
      RestApart(keys, pairs);
      NewFollow(keys + [Key(pairs[0])], r, pairs[1..], since);
      assert pairs[0] in pairs;
      PlacedNew(keys, r.rows[pairs[0]], ChangedIn(r, pairs[1..], since));
      Regroup(keys, [Key(pairs[0])], OrderKeys(pairs[1..]));
    }
  }

  lemma {:induction false} OrderKeysAppend(a: seq<Pair>, b: seq<Pair>)
    ensures OrderKeys(a + b) == OrderKeys(a) + OrderKeys(b)
  {
  }

  lemma {:induction false} KeysApart(r: Run, i: nat, j: nat)
    requires Rowed(r) && WellNamed(r.rows) && i < j < |r.order|
    ensures Key(r.order[i]) != Key(r.order[j])
  {
    assert r.order[i] in r.order && r.order[j] in r.order;
    KeyTellsPairs(r.order[i], r.order[j]);
  }

  /** A pair that came after a run was seen has a number above what was seen. */
  lemma {:induction false} NewRow(was: Run, r: Run, i: nat)
    requires Rowed(was) && Rowed(r) && Moves(was, r, was.num) && |was.order| <= i < |r.order|
    ensures r.order[i] in r.rows && was.num < r.rows[r.order[i]].num
  {
    assert r.order[i] in r.order;
    forall j | 0 <= j < |was.order|
      ensures was.order[j] != r.order[i]
    {
      assert was.order[j] == r.order[j];
    }
  }

  lemma {:induction false} NewKey(was: Run, r: Run, i: nat)
    requires Rowed(r) && WellNamed(r.rows) && was.order <= r.order && |was.order| <= i < |r.order|
    ensures Key(r.order[i]) !in OrderKeys(was.order)
  {
    forall j | 0 <= j < |was.order|
      ensures Key(was.order[j]) != Key(r.order[i])
    {
      KeysApart(r, j, i);
    }
  }

  lemma {:induction false} NewNumbers(was: Run, r: Run, rest: seq<Pair>)
    requires Rowed(was) && Rowed(r) && Moves(was, r, was.num) && rest == r.order[|was.order|..]
    ensures forall p | p in rest :: p in r.rows && was.num < r.rows[p].num
  {
    forall i | 0 <= i < |rest|
      ensures rest[i] in r.rows && was.num < r.rows[rest[i]].num
    {
      NewRow(was, r, |was.order| + i);
    }
  }

  lemma {:induction false} KeysOfRest(order: seq<Pair>, n: nat, rest: seq<Pair>, keys: seq<string>)
    requires n <= |order| && rest == order[n..]
    requires forall i | n <= i < |order| :: Key(order[i]) !in keys
    ensures forall p | p in rest :: Key(p) !in keys
  {
    assert forall i | 0 <= i < |rest| :: rest[i] == order[n + i];
  }

  lemma {:induction false} NewKeys(was: Run, r: Run, rest: seq<Pair>)
    requires Rowed(r) && WellNamed(r.rows) && was.order <= r.order && rest == r.order[|was.order|..]
    ensures forall p | p in rest :: Key(p) !in OrderKeys(was.order)
  {
    forall i | |was.order| <= i < |r.order|
      ensures Key(r.order[i]) !in OrderKeys(was.order)
    {
      NewKey(was, r, i);
    }
    KeysOfRest(r.order, |was.order|, rest, OrderKeys(was.order));
  }

  lemma {:induction false} RestKeysApart(r: Run, n: nat, rest: seq<Pair>)
    requires Rowed(r) && WellNamed(r.rows) && n <= |r.order| && rest == r.order[n..]
    ensures forall i, j | 0 <= i < j < |rest| :: Key(rest[i]) != Key(rest[j])
  {
    forall i, j | 0 <= i < j < |rest|
      ensures Key(rest[i]) != Key(rest[j])
    {
      KeysApart(r, n + i, n + j);
    }
  }

  lemma {:induction false} ShownKeys(pairs: seq<Pair>)
    ensures forall p | p in pairs :: Key(p) in OrderKeys(pairs)
  {
    forall p | p in pairs
      ensures Key(p) in OrderKeys(pairs)
    {
      var i :| 0 <= i < |pairs| && pairs[i] == p;
      assert OrderKeys(pairs)[i] == Key(p);
    }
  }

  lemma {:induction false} KnownThenNew(keys: seq<string>, r: Run, known: seq<Pair>, rest: seq<Pair>, since: nat)
    requires Rowed(r) && r.order == known + rest && (forall p | p in known :: p in r.rows && Key(p) in keys)
    requires (forall p | p in rest :: p in r.rows && since < r.rows[p].num) && forall p | p in rest :: Key(p) !in keys
    requires forall i, j | 0 <= i < j < |rest| :: Key(rest[i]) != Key(rest[j])
    ensures Placed(keys, RowsSince(r, since)) == keys + OrderKeys(rest)
  {
    ChangedAppend(r, known, rest, since);
    PlacedAppend(keys, ChangedIn(r, known, since), ChangedIn(r, rest, since));
    KnownStay(keys, r, known, since);
    NewFollow(keys, r, rest, since);
  }

  /** A table that had the rows of a run in their order has them in their order again once it takes what changed. */
  lemma {:induction false} OrderCatchesUp(was: Run, r: Run)
    requires Rowed(was) && Rowed(r) && Moves(was, r, was.num) && WellNamed(r.rows)
    ensures Placed(OrderKeys(was.order), RowsSince(r, was.num)) == OrderKeys(r.order)
  {
    var rest := r.order[|was.order|..];
    assert r.order == was.order + rest;
    ShownKeys(was.order);
    NewNumbers(was, r, rest);
    NewKeys(was, r, rest);
    RestKeysApart(r, |was.order|, rest);
    KnownThenNew(OrderKeys(was.order), r, was.order, rest, was.num);
    OrderKeysAppend(was.order, rest);
  }
}

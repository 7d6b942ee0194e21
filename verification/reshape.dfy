/** The record-list to column-table reshape. The fetched records are flat
    key/value records; the first record's keys, in its order, become the
    columns, every record then appends each of its values to the column of
    the same key, and the first column is promoted to the table's index. */
module Reshape {
  import opened Basics

  type Key = string

  /** One flat record: its fields in iteration order. */
  type Record<V> = seq<(Key, V)>

  /** One column: a key and the values appended under it, in record order. */
  datatype Column<V> = Column(key: Key, values: seq<V>)

  /** The indexed table: the index column's key and values, then the other
      columns in the first record's key order. */
  datatype Table<V> = Table(indexKey: Key, index: seq<V>, columns: seq<Column<V>>)

  // ---------------------------------------------------------------------
  // Records

  function Keys<V>(r: Record<V>): (ks: seq<Key>)
    ensures |ks| == |r|
    ensures forall i :: 0 <= i < |r| ==> ks[i] == r[i].0
  {
    if |r| == 0 then [] else [r[0].0] + Keys(r[1..])
  }

  /** A record as a mapping: no key occurs twice. */
  predicate DistinctKeys<V>(r: Record<V>) {
    Distinct(Keys(r))
  }

  predicate AllDistinctKeys<V>(rs: seq<Record<V>>) {
    forall i :: 0 <= i < |rs| ==> DistinctKeys(rs[i])
  }

  /** The value a record holds under a key it has (its first occurrence). */
  function ValueOf<V>(r: Record<V>, k: Key): V
    requires k in Keys(r)
  {
    if r[0].0 == k then r[0].1 else ValueOf(r[1..], k)
  }

  /** What one record contributes to the column of key k: its value under k,
      or nothing when it lacks k. */
  function Cell<V>(r: Record<V>, k: Key): seq<V> {
    if k in Keys(r) then [ValueOf(r, k)] else []
  }

  /** Every key of the record is among the given keys. */
  predicate Conforms<V>(r: Record<V>, keys: seq<Key>) {
    forall i :: 0 <= i < |r| ==> r[i].0 in keys
  }

  /** The position of the first field whose key is outside the given keys. */
  function FirstForeign<V>(r: Record<V>, keys: seq<Key>): (p: nat)
    requires !Conforms(r, keys)
    ensures p < |r| && r[p].0 !in keys
    ensures forall q :: 0 <= q < p ==> r[q].0 in keys
  {
    if r[0].0 !in keys then 0
    else
      assert !Conforms(r[1..], keys) by {
        var i :| 0 <= i < |r| && r[i].0 !in keys;
        assert r[1..][i - 1] == r[i];
      }
      1 + FirstForeign(r[1..], keys)
  }

  /** The values under key k of the records that have it, in record order:
      the reference definition of a column. */
  function Project<V>(rs: seq<Record<V>>, k: Key): (col: seq<V>)
    ensures |col| <= |rs|
  {
    if |rs| == 0 then [] else Project(rs[..|rs| - 1], k) + Cell(rs[|rs| - 1], k)
  }

  // ---------------------------------------------------------------------
  // Columns

  function Names<V>(cols: seq<Column<V>>): seq<Key> {
    seq(|cols|, j requires 0 <= j < |cols| => cols[j].key)
  }

  /** One empty column per key of the first record. */
  function EmptyColumns<V>(keys: seq<Key>): seq<Column<V>> {
    seq(|keys|, j requires 0 <= j < |keys| => Column(keys[j], []))
  }

  /** Appending one value to the column of key k; there is no such column
      when k was not a key of the first record. */
  function Append<V>(cols: seq<Column<V>>, k: Key, v: V): Option<seq<Column<V>>> {
    if k in Names(cols) then
      Some(seq(|cols|, j requires 0 <= j < |cols| =>
        if cols[j].key == k then Column(k, cols[j].values + [v]) else cols[j]))
    else None
  }

  /** Appending every field of one record, in the record's order; fails with
      the first key that has no column. */
  function AddRecord<V>(cols: seq<Column<V>>, r: Record<V>): Result<seq<Column<V>>, Key>
    decreases |r|
  {
    if |r| == 0 then Success(cols)
    else match Append(cols, r[0].0, r[0].1)
      case None => Failure(r[0].0)
      case Some(next) => AddRecord(next, r[1..])
  }

  /** Appending every record, first to last, to the columns of the given keys. */
  function Fill<V>(keys: seq<Key>, rs: seq<Record<V>>): Result<seq<Column<V>>, Error> {
    if |rs| == 0 then Success(EmptyColumns(keys))
    else match Fill(keys, rs[..|rs| - 1])
      case Failure(e) => Failure(e)
      case Success(cols) =>
        match AddRecord(cols, rs[|rs| - 1])
        case Failure(k) => Failure(UnknownKey(|rs| - 1, k))
        case Success(next) => Success(next)
  }

  /** The column map of a record list: no first record means no columns. */
  function ToColumns<V>(rs: seq<Record<V>>): Result<seq<Column<V>>, Error> {
    if |rs| == 0 then Failure(EmptyResult) else Fill(Keys(rs[0]), rs)
  }

  /** All columns hold the same number of values. */
  predicate SameLengths<V>(cols: seq<Column<V>>) {
    forall j :: 0 <= j < |cols| ==> |cols[j].values| == |cols[0].values|
  }

  /** Building the frame and promoting the first column to the index. The
      frame cannot be built from columns of different lengths, and a table
      without columns has no index to choose. */
  function IndexBy<V>(cols: seq<Column<V>>): Result<Table<V>, Error> {
    if !SameLengths(cols) then Failure(RaggedColumns)
    else if |cols| == 0 then Failure(NoColumns)
    else Success(Table(cols[0].key, cols[0].values, cols[1..]))
  }

  /** The whole reshape. */
  function Build<V>(rs: seq<Record<V>>): Result<Table<V>, Error> {
    var cols :- ToColumns(rs);
    IndexBy(cols)
  }

  /** The columns a conforming record list must produce. */
  function Expected<V>(keys: seq<Key>, rs: seq<Record<V>>): seq<Column<V>> {
    seq(|keys|, j requires 0 <= j < |keys| => Column(keys[j], Project(rs, keys[j])))
  }

  // ---------------------------------------------------------------------
  // Lemmas about records

  lemma KeysTail<V>(r: Record<V>)
    requires |r| > 0
    ensures Keys(r) == [r[0].0] + Keys(r[1..])
  {
  }

  /** With distinct keys, the value under the key at position j is the value
      at position j. */
  lemma {:induction false} ValueOfAt<V>(r: Record<V>, j: nat)
    requires DistinctKeys(r)
    requires j < |r|
    ensures r[j].0 in Keys(r)
    ensures ValueOf(r, r[j].0) == r[j].1
  {
    if j > 0 {
      assert Keys(r)[0] != Keys(r)[j];
      KeysTail(r);
      ValueOfAt(r[1..], j - 1);
    }
  }

  /** A record with distinct keys splits into its first field and the rest,
      and each key's cell comes from exactly one of the two. */
  lemma CellSplit<V>(r: Record<V>, k: Key)
    requires |r| > 0
    requires DistinctKeys(r)
    ensures DistinctKeys(r[1..])
    ensures Cell(r, k) == (if k == r[0].0 then [r[0].1] else []) + Cell(r[1..], k)
  {
    KeysTail(r);
    assert Keys(r[1..]) == Keys(r)[1..];
    if k == r[0].0 {
      assert k !in Keys(r[1..]) by {
        forall i | 0 <= i < |Keys(r[1..])|
          ensures Keys(r[1..])[i] != k
        {
          assert Keys(r)[0] != Keys(r)[i + 1];
        }
      }
    }
  }

  // ---------------------------------------------------------------------
  // The reshape, one record at a time

  /** Appending one record with distinct keys succeeds exactly when every key
      has a column; then each column gains that record's value under its key
      (or nothing when the record lacks it) and no column is added, removed or
      reordered. Otherwise the failing key is one of the record's keys that
      has no column, the first such in the record's field order. */
  lemma {:induction false} AddRecordSpec<V>(cols: seq<Column<V>>, r: Record<V>)
    requires Distinct(Names(cols))
    requires DistinctKeys(r)
    ensures AddRecord(cols, r).Success? <==> Conforms(r, Names(cols))
    ensures AddRecord(cols, r).Success? ==>
              AddRecord(cols, r).value
              == seq(|cols|, j requires 0 <= j < |cols| =>
                   Column(cols[j].key, cols[j].values + Cell(r, cols[j].key)))
    ensures AddRecord(cols, r).Failure? ==>
              !Conforms(r, Names(cols)) && AddRecord(cols, r).error == r[FirstForeign(r, Names(cols))].0
    decreases |r|
  {
    var expected := seq(|cols|, j requires 0 <= j < |cols| =>
                      Column(cols[j].key, cols[j].values + Cell(r, cols[j].key)));
    if |r| == 0 {
      forall j | 0 <= j < |cols|
        ensures expected[j] == cols[j]
      {
        assert Cell(r, cols[j].key) == [];
        assert cols[j].values + [] == cols[j].values;
      }
    } else {
      var k, v := r[0].0, r[0].1;
      KeysTail(r);
      if k in Names(cols) {
        var next := Append(cols, k, v).value;
        assert Names(next) == Names(cols);
        CellSplit(r, k);
        AddRecordSpec(next, r[1..]);
        if AddRecord(next, r[1..]).Success? {
          var got := AddRecord(next, r[1..]).value;
          forall j | 0 <= j < |cols|
            ensures got[j] == expected[j]
          {
            CellSplit(r, cols[j].key);
          }
        }
      }
    }
  }

  /** Filling conforming records yields exactly the reference columns; the
      fill fails exactly when some record has a key outside the given keys,
      and then it reports the first such record, by its position, and that
      record's first foreign key. */
  lemma {:induction false} FillSpec<V>(keys: seq<Key>, rs: seq<Record<V>>)
    requires Distinct(keys)
    requires AllDistinctKeys(rs)
    ensures Fill(keys, rs).Success? <==> forall i :: 0 <= i < |rs| ==> Conforms(rs[i], keys)
    ensures Fill(keys, rs).Success? ==> Fill(keys, rs).value == Expected(keys, rs)
    ensures Fill(keys, rs).Failure? ==>
              var e := Fill(keys, rs).error;
              && e.UnknownKey?
              && e.record < |rs|
              && !Conforms(rs[e.record], keys)
              && e.key == rs[e.record][FirstForeign(rs[e.record], keys)].0
              && forall i :: 0 <= i < e.record ==> Conforms(rs[i], keys)
  {
    if |rs| == 0 {
      assert EmptyColumns<V>(keys) == Expected(keys, rs);
    } else {
      var n := |rs| - 1;
      var prefix := rs[..n];
      assert forall i :: 0 <= i < n ==> prefix[i] == rs[i];
      FillSpec(keys, prefix);
      if Fill(keys, prefix).Success? {
        var cols := Fill(keys, prefix).value;
        assert Names(cols) == keys;
        AddRecordSpec(cols, rs[n]);
        if AddRecord(cols, rs[n]).Success? {
          assert Fill(keys, rs).value == Expected(keys, rs);
        } else {
        }
      } else {
        var e := Fill(keys, prefix).error;
        assert prefix[e.record] == rs[e.record];
      }
    }
  }

  // ---------------------------------------------------------------------
  // The reshape as a whole

  /** The first record's keys, the columns the reshape creates. */
  function FirstKeys<V>(rs: seq<Record<V>>): seq<Key>
    requires |rs| > 0
  {
    Keys(rs[0])
  }

  /** Every record's keys are among the first record's keys. */
  predicate AllConform<V>(rs: seq<Record<V>>)
    requires |rs| > 0
  {
    forall i :: 0 <= i < |rs| ==> Conforms(rs[i], FirstKeys(rs))
  }

  /** The three outcomes of the column reshape. An empty record list fails
      with EmptyResult. Otherwise it succeeds exactly when no record has a key
      the first record lacks; then there is one column per key of the first
      record, in that record's key order, each holding the values of the
      records that have its key, in record order. When it fails, it names the
      first record carrying a foreign key, and that key. */
  lemma ToColumnsSpec<V>(rs: seq<Record<V>>)
    requires AllDistinctKeys(rs)
    ensures |rs| == 0 ==> ToColumns(rs) == Failure(EmptyResult)
    ensures ToColumns(rs).Success? <==> |rs| > 0 && AllConform(rs)
    ensures ToColumns(rs).Success? ==>
              && Names(ToColumns(rs).value) == FirstKeys(rs)
              && forall j :: 0 <= j < |ToColumns(rs).value| ==>
                   ToColumns(rs).value[j].values == Project(rs, FirstKeys(rs)[j])
    ensures |rs| > 0 && ToColumns(rs).Failure? ==>
              var e := ToColumns(rs).error;
              && e.UnknownKey?
              && 0 < e.record < |rs|
              && !Conforms(rs[e.record], FirstKeys(rs))
              && e.key == rs[e.record][FirstForeign(rs[e.record], FirstKeys(rs))].0
              && forall i :: 0 <= i < e.record ==> Conforms(rs[i], FirstKeys(rs))
  {
    if |rs| > 0 {
      assert Conforms(rs[0], FirstKeys(rs));
      FillSpec(FirstKeys(rs), rs);
    }
  }

  /** Every key of the first record collects as many values as the first
      key: the record list fills a rectangle. */
  predicate Balanced<V>(rs: seq<Record<V>>)
    requires |rs| > 0
  {
    forall j :: 0 <= j < |FirstKeys(rs)| ==>
      |Project(rs, FirstKeys(rs)[j])| == |Project(rs, FirstKeys(rs)[0])|
  }

  /** The columns the reshape fills have one length exactly when the record
      list is balanced. */
  lemma ColumnsBalanced<V>(rs: seq<Record<V>>, cols: seq<Column<V>>)
    requires |rs| > 0
    requires Names(cols) == FirstKeys(rs)
    requires forall j :: 0 <= j < |cols| ==> cols[j].values == Project(rs, FirstKeys(rs)[j])
    ensures SameLengths(cols) <==> Balanced(rs)
  {
    assert |cols| == |FirstKeys(rs)| by {
      assert |Names(cols)| == |cols|;
    }
  }

  /** Which way the complete reshape ends. It fails with EmptyResult exactly
      on an empty list, with UnknownKey, as ToColumnsSpec describes it,
      exactly when a later record has a key the first lacks, with
      RaggedColumns exactly when the columns the records fill have different
      lengths, and with NoColumns exactly when the first record has no keys
      and nothing else failed. */
  lemma BuildOutcome<V>(rs: seq<Record<V>>)
    requires AllDistinctKeys(rs)
    ensures Build(rs) == Failure(EmptyResult) <==> |rs| == 0
    ensures Build(rs).Success? <==> |rs| > 0 && |FirstKeys(rs)| > 0 && AllConform(rs) && Balanced(rs)
    ensures Build(rs) == Failure(RaggedColumns) <==> |rs| > 0 && AllConform(rs) && !Balanced(rs)
    ensures Build(rs) == Failure(NoColumns) <==> |rs| > 0 && FirstKeys(rs) == [] && AllConform(rs)
    ensures |rs| > 0 && !AllConform(rs) ==>
              && Build(rs).Failure?
              && Build(rs).error == ToColumns(rs).error
              && Build(rs).error.UnknownKey?
  {
    ToColumnsSpec(rs);
    if |rs| == 0 {
      assert Build(rs) == Failure(EmptyResult);
    } else if ToColumns(rs).Failure? {
      assert Build(rs) == ToColumns(rs).PropagateFailure();
    } else {
      var cols := ToColumns(rs).value;
      assert Build(rs) == IndexBy(cols);
      ColumnsBalanced(rs, cols);
      if |cols| == 0 {
        assert FirstKeys(rs) == [] by {
          assert |Names(cols)| == 0;
        }
      } else {
        assert FirstKeys(rs) != [] by {
          assert |Names(cols)| == |cols|;
        }
      }
    }
  }

  /** The table a successful reshape builds: it is rectangular, the index is
      the first record's first key, the other columns follow that record's
      key order, and every column, index included, holds the projection of
      the records onto its key. */
  lemma BuildTable<V>(rs: seq<Record<V>>)
    requires AllDistinctKeys(rs)
    requires Build(rs).Success?
    ensures |rs| > 0 && |FirstKeys(rs)| > 0
    ensures var t := Build(rs).value;
            && Rectangular(t)
            && t.indexKey == FirstKeys(rs)[0]
            && t.index == Project(rs, t.indexKey)
            && Names(t.columns) == FirstKeys(rs)[1..]
            && forall j :: 0 <= j < |t.columns| ==> t.columns[j].values == Project(rs, t.columns[j].key)
  {
    ToColumnsSpec(rs);
    var cols := ToColumns(rs).value;
    assert Build(rs) == IndexBy(cols);
    assert |FirstKeys(rs)| > 0 by {
      assert |Names(cols)| == |cols|;
    }
    assert SameLengths(cols) && |cols| > 0;
    var t := Table(cols[0].key, cols[0].values, cols[1..]);
    assert Build(rs) == Success(t);
    assert t.indexKey == Names(cols)[0];
    assert Names(t.columns) == Names(cols)[1..];
    forall j | 0 <= j < |t.columns|
      ensures t.columns[j].values == Project(rs, t.columns[j].key)
      ensures |t.columns[j].values| == |t.index|
    {
      assert t.columns[j] == cols[j + 1];
      assert |cols[j + 1].values| == |cols[0].values|;
      assert Names(cols)[j + 1] == FirstKeys(rs)[j + 1];
    }
  }

  /** The complete reshape: its outcome and, on success, its table. */
  lemma BuildSpec<V>(rs: seq<Record<V>>)
    requires AllDistinctKeys(rs)
    ensures Build(rs) == Failure(EmptyResult) <==> |rs| == 0
    ensures Build(rs).Success? <==> |rs| > 0 && |FirstKeys(rs)| > 0 && AllConform(rs) && Balanced(rs)
    ensures Build(rs) == Failure(RaggedColumns) <==> |rs| > 0 && AllConform(rs) && !Balanced(rs)
    ensures Build(rs) == Failure(NoColumns) <==> |rs| > 0 && FirstKeys(rs) == [] && AllConform(rs)
    ensures |rs| > 0 && !AllConform(rs) ==>
              && Build(rs).Failure?
              && Build(rs).error == ToColumns(rs).error
              && Build(rs).error.UnknownKey?
    ensures Build(rs).Success? ==>
              var t := Build(rs).value;
              && Rectangular(t)
              && t.indexKey == FirstKeys(rs)[0]
              && t.index == Project(rs, t.indexKey)
              && Names(t.columns) == FirstKeys(rs)[1..]
              && forall j :: 0 <= j < |t.columns| ==> t.columns[j].values == Project(rs, t.columns[j].key)
  {
    BuildOutcome(rs);
    if Build(rs).Success? {
      BuildTable(rs);
    }
  }

  // ---------------------------------------------------------------------
  // Column lengths

  /** A column is as long as the record list exactly when every record has
      its key; every record that has it contributes its own value at its own
      position. */
  lemma {:induction false} ProjectFull<V>(rs: seq<Record<V>>, k: Key)
    requires forall i :: 0 <= i < |rs| ==> k in Keys(rs[i])
    ensures |Project(rs, k)| == |rs|
    ensures forall i :: 0 <= i < |rs| ==> Project(rs, k)[i] == ValueOf(rs[i], k)
  {
    if |rs| > 0 {
      var prefix := rs[..|rs| - 1];
      assert forall i :: 0 <= i < |prefix| ==> prefix[i] == rs[i];
      ProjectFull(prefix, k);
    }
  }

  /** A record lacking the key leaves the column shorter than the record list:
      nothing is filled in for it. */
  lemma {:induction false} ProjectShort<V>(rs: seq<Record<V>>, k: Key, j: nat)
    requires j < |rs|
    requires k !in Keys(rs[j])
    ensures |Project(rs, k)| < |rs|
  {
    var prefix := rs[..|rs| - 1];
    if j < |rs| - 1 {
      assert prefix[j] == rs[j];
      ProjectShort(prefix, k, j);
    }
  }

  /** The first record's value heads the column of each of its keys. */
  lemma {:induction false} ProjectFirst<V>(rs: seq<Record<V>>, k: Key)
    requires |rs| > 0
    requires k in Keys(rs[0])
    ensures |Project(rs, k)| > 0
    ensures Project(rs, k)[0] == ValueOf(rs[0], k)
  {
    if |rs| > 1 {
      var prefix := rs[..|rs| - 1];
      assert prefix[0] == rs[0];
      ProjectFirst(prefix, k);
    }
  }

  /** Every record has the same key set as the first. */
  predicate Homogeneous<V>(rs: seq<Record<V>>) {
    && |rs| > 0
    && AllConform(rs)
    && forall i, j :: 0 <= i < |rs| && 0 <= j < |FirstKeys(rs)| ==> FirstKeys(rs)[j] in Keys(rs[i])
  }

  /** For homogeneous records with at least one key, the table is
      rectangular: the index and every column have one entry per record, and
      entry i of the column of key k is record i's value under k. */
  lemma BuildHomogeneous<V>(rs: seq<Record<V>>)
    requires AllDistinctKeys(rs)
    requires Homogeneous(rs)
    requires |FirstKeys(rs)| > 0
    ensures Build(rs).Success?
    ensures var t := Build(rs).value;
            && |t.index| == |rs|
            && (forall i :: 0 <= i < |rs| ==>
                  t.indexKey in Keys(rs[i]) && t.index[i] == ValueOf(rs[i], t.indexKey))
            && forall j :: 0 <= j < |t.columns| ==>
                 && |t.columns[j].values| == |rs|
                 && forall i :: 0 <= i < |rs| ==>
                      t.columns[j].key in Keys(rs[i]) && t.columns[j].values[i] == ValueOf(rs[i], t.columns[j].key)
  {
    forall j | 0 <= j < |FirstKeys(rs)|
      ensures |Project(rs, FirstKeys(rs)[j])| == |rs|
    {
      ProjectFull(rs, FirstKeys(rs)[j]);
    }
    BuildSpec(rs);
    var t := Build(rs).value;
    ProjectFull(rs, t.indexKey);
    forall j | 0 <= j < |t.columns|
      ensures |t.columns[j].values| == |rs|
      ensures forall i :: 0 <= i < |rs| ==>
                t.columns[j].key in Keys(rs[i]) && t.columns[j].values[i] == ValueOf(rs[i], t.columns[j].key)
    {
      assert t.columns[j].key == Names(t.columns)[j] == FirstKeys(rs)[j + 1];
      ProjectFull(rs, t.columns[j].key);
    }
  }

  /** A single record with at least one field always builds: a snapshot
      response cannot be ragged. */
  lemma SingleRecordBuilds<V>(r: Record<V>)
    requires DistinctKeys(r) && |r| > 0
    ensures Build([r]).Success?
    ensures |Build([r]).value.index| == 1
  {
    var rs := [r];
    assert FirstKeys(rs) == Keys(r);
    forall i, j | 0 <= i < |rs| && 0 <= j < |FirstKeys(rs)|
      ensures FirstKeys(rs)[j] in Keys(rs[i])
    {
    }
    forall p | 0 <= p < |r|
      ensures r[p].0 in FirstKeys(rs)
    {
      assert Keys(r)[p] == r[p].0;
    }
    assert Conforms(rs[0], FirstKeys(rs));
    BuildHomogeneous(rs);
  }

  /** In the column map, a record lacking one of the first record's keys
      leaves that key's column shorter than the record list: no default
      value is filled in for it. */
  lemma ColumnsShortWhereMissing<V>(rs: seq<Record<V>>, j: nat, i: nat)
    requires AllDistinctKeys(rs)
    requires |rs| > 0 && AllConform(rs)
    requires j < |FirstKeys(rs)|
    requires i < |rs| && FirstKeys(rs)[j] !in Keys(rs[i])
    ensures ToColumns(rs).Success?
    ensures j < |ToColumns(rs).value|
    ensures ToColumns(rs).value[j].key == FirstKeys(rs)[j]
    ensures |ToColumns(rs).value[j].values| < |rs|
  {
    ToColumnsSpec(rs);
    var cols := ToColumns(rs).value;
    assert |cols| == |FirstKeys(rs)| by {
      assert |Names(cols)| == |cols|;
    }
    assert cols[j].key == Names(cols)[j];
    ProjectShort(rs, FirstKeys(rs)[j], i);
  }

  /** A record that has the index key but lacks another key of the first
      record leaves that key's column shorter than the index, so the frame
      cannot be built: a missing field is an error, not a gap. */
  lemma BuildRejectsMissingField<V>(rs: seq<Record<V>>, i: nat, k: Key)
    requires AllDistinctKeys(rs)
    requires |rs| > 0 && AllConform(rs)
    requires forall p :: 0 <= p < |rs| ==> |FirstKeys(rs)| > 0 && FirstKeys(rs)[0] in Keys(rs[p])
    requires k in FirstKeys(rs)
    requires i < |rs| && k !in Keys(rs[i])
    ensures Build(rs) == Failure(RaggedColumns)
  {
    BuildSpec(rs);
    ProjectFull(rs, FirstKeys(rs)[0]);
    ProjectShort(rs, k, i);
    var j :| 0 <= j < |FirstKeys(rs)| && FirstKeys(rs)[j] == k;
    assert !Balanced(rs);
  }

  /** Gaps that balance out are not caught: when one record lacks the value
      key and a later one lacks the index key, both columns come out equally
      long and the table is built, pairing the index value of one record
      with the field value of another. */
  lemma BuildPairsAcrossRecords<V>(t: Key, a: Key, t0: V, a0: V, t1: V, a2: V)
    requires t != a
    ensures Build([[(t, t0), (a, a0)], [(t, t1)], [(a, a2)]])
            == Success(Table(t, [t0, t1], [Column(a, [a0, a2])]))
  {
    var rs := [[(t, t0), (a, a0)], [(t, t1)], [(a, a2)]];
    GapKeys(t, a, t0, a0, t1, a2);
    GapProjections(t, a, t0, a0, t1, a2);
    assert Balanced(rs) by {
      assert FirstKeys(rs)[0] == t && FirstKeys(rs)[1] == a;
    }
    BuildSpec(rs);
    var tb := Build(rs).value;
    assert |tb.columns| == 1 by {
      assert |Names(tb.columns)| == 1;
    }
    assert tb.columns[0].key == Names(tb.columns)[0] == a;
    assert tb.indexKey == t && tb.index == [t0, t1];
    assert tb.columns[0] == Column(a, [a0, a2]);
    assert tb.columns == [Column(a, [a0, a2])];
  }

  /** The keys of the three records in BuildPairsAcrossRecords. */
  lemma GapKeys<V>(t: Key, a: Key, t0: V, a0: V, t1: V, a2: V)
    requires t != a
    ensures var rs := [[(t, t0), (a, a0)], [(t, t1)], [(a, a2)]];
            && AllDistinctKeys(rs) && FirstKeys(rs) == [t, a] && AllConform(rs)
            && Keys(rs[1]) == [t] && Keys(rs[2]) == [a]
  {
    var rs := [[(t, t0), (a, a0)], [(t, t1)], [(a, a2)]];
    assert Keys(rs[0]) == [t, a] && Keys(rs[1]) == [t] && Keys(rs[2]) == [a];
    assert Conforms(rs[1], [t, a]) && Conforms(rs[2], [t, a]);
  }

  /** The columns the three records in BuildPairsAcrossRecords fill. */
  lemma GapProjections<V>(t: Key, a: Key, t0: V, a0: V, t1: V, a2: V)
    requires t != a
    ensures var rs := [[(t, t0), (a, a0)], [(t, t1)], [(a, a2)]];
            Project(rs, t) == [t0, t1] && Project(rs, a) == [a0, a2]
  {
    var rs := [[(t, t0), (a, a0)], [(t, t1)], [(a, a2)]];
    GapKeys(t, a, t0, a0, t1, a2);
    var one, two := rs[..1], rs[..2];
    assert two[..1] == one && rs[..2] == two;
    ValueOfAt(rs[0], 1);
    assert Cell(rs[0], t) == [t0] && Cell(rs[0], a) == [a0];
    assert Cell(rs[1], t) == [t1] && Cell(rs[1], a) == [];
    assert Cell(rs[2], t) == [] && Cell(rs[2], a) == [a2];
    assert Project(one, t) == [t0] && Project(one, a) == [a0] by {
      assert one[..0] == [];
    }
    assert Project(two, t) == [t0, t1] && Project(two, a) == [a0];
  }

  /** Every column of a built table is non-empty and starts with the first
      record's value under its key. */
  lemma BuildColumnsStartWithFirstRecord<V>(rs: seq<Record<V>>)
    requires AllDistinctKeys(rs)
    requires Build(rs).Success?
    ensures var t := Build(rs).value;
            && |t.index| > 0 && t.indexKey in Keys(rs[0]) && t.index[0] == ValueOf(rs[0], t.indexKey)
            && forall j :: 0 <= j < |t.columns| ==>
                 && t.columns[j].key in FirstKeys(rs)
                 && |t.columns[j].values| > 0
                 && t.columns[j].values[0] == ValueOf(rs[0], t.columns[j].key)
  {
    BuildSpec(rs);
    var t := Build(rs).value;
    ProjectFirst(rs, t.indexKey);
    forall j | 0 <= j < |t.columns|
      ensures t.columns[j].key in FirstKeys(rs)
      ensures |t.columns[j].values| > 0
      ensures t.columns[j].values[0] == ValueOf(rs[0], t.columns[j].key)
    {
      assert t.columns[j].key == Names(t.columns)[j] == FirstKeys(rs)[j + 1];
      ProjectFirst(rs, t.columns[j].key);
    }
  }

  // ---------------------------------------------------------------------
  // Reading the rows back

  /** The table's columns all have one entry per index entry. */
  predicate Rectangular<V>(t: Table<V>) {
    forall j :: 0 <= j < |t.columns| ==> |t.columns[j].values| == |t.index|
  }

  /** Row i of a rectangular table as a record: the index field, then the
      other columns in order. */
  function Row<V>(t: Table<V>, i: nat): Record<V>
    requires Rectangular(t)
    requires i < |t.index|
  {
    [(t.indexKey, t.index[i])]
      + seq(|t.columns|, j requires 0 <= j < |t.columns| => (t.columns[j].key, t.columns[j].values[i]))
  }

  function Rows<V>(t: Table<V>): seq<Record<V>>
    requires Rectangular(t)
  {
    seq(|t.index|, i requires 0 <= i < |t.index| => Row(t, i))
  }

  /** Records that all list the first record's keys, in its order, are
      homogeneous. */
  lemma SameKeysHomogeneous<V>(rs: seq<Record<V>>)
    requires |rs| > 0
    requires forall i :: 0 <= i < |rs| ==> Keys(rs[i]) == FirstKeys(rs)
    ensures Homogeneous(rs)
  {
    var keys := FirstKeys(rs);
    forall i, j | 0 <= i < |rs| && 0 <= j < |keys|
      ensures keys[j] in Keys(rs[i])
    {
      assert Keys(rs[i])[j] == keys[j];
    }
    forall i | 0 <= i < |rs|
      ensures Conforms(rs[i], keys)
    {
      forall p | 0 <= p < |rs[i]|
        ensures rs[i][p].0 in keys
      {
        assert Keys(rs[i])[p] == rs[i][p].0;
      }
    }
  }

  /** Row i of a rectangular table is the record r when the index entry is
      r's first field and each column's entry is r's field at the next
      position. */
  lemma RowIsRecord<V>(t: Table<V>, i: nat, r: Record<V>)
    requires Rectangular(t) && i < |t.index|
    requires |r| == |t.columns| + 1
    requires r[0] == (t.indexKey, t.index[i])
    requires forall j :: 0 <= j < |t.columns| ==> r[j + 1] == (t.columns[j].key, t.columns[j].values[i])
    ensures Row(t, i) == r
  {
    var row := Row(t, i);
    forall p | 0 <= p < |row|
      ensures row[p] == r[p]
    {
      if p > 0 {
        assert r[(p - 1) + 1] == (t.columns[p - 1].key, t.columns[p - 1].values[i]);
      }
    }
  }

  /** The keys of a built table are the first record's keys, in order: the
      first is the index key and the rest name the columns. */
  lemma BuildKeys<V>(rs: seq<Record<V>>)
    requires AllDistinctKeys(rs)
    requires Build(rs).Success?
    ensures var t := Build(rs).value;
            && |t.columns| + 1 == |FirstKeys(rs)|
            && t.indexKey == FirstKeys(rs)[0]
            && forall j :: 0 <= j < |t.columns| ==> t.columns[j].key == FirstKeys(rs)[j + 1]
  {
    BuildSpec(rs);
    var t := Build(rs).value;
    assert |Names(t.columns)| == |FirstKeys(rs)[1..]|;
    forall j | 0 <= j < |t.columns|
      ensures t.columns[j].key == FirstKeys(rs)[j + 1]
    {
      assert Names(t.columns)[j] == FirstKeys(rs)[1..][j];
    }
  }

  /** Row i of the table built from homogeneous records lists record i's
      fields in the first record's key order, so it is record i when that
      record uses the same order. */
  lemma BuildRowFields<V>(rs: seq<Record<V>>, i: nat)
    requires AllDistinctKeys(rs)
    requires Homogeneous(rs) && |FirstKeys(rs)| > 0
    requires i < |rs| && Keys(rs[i]) == FirstKeys(rs)
    ensures Build(rs).Success?
    ensures var t := Build(rs).value;
            && Rectangular(t) && i < |t.index|
            && |rs[i]| == |t.columns| + 1
            && rs[i][0] == (t.indexKey, t.index[i])
            && forall j :: 0 <= j < |t.columns| ==> rs[i][j + 1] == (t.columns[j].key, t.columns[j].values[i])
  {
    BuildHomogeneous(rs);
    BuildKeys(rs);
    var t := Build(rs).value;
    ValueOfAt(rs[i], 0);
    forall j | 0 <= j < |t.columns|
      ensures rs[i][j + 1] == (t.columns[j].key, t.columns[j].values[i])
    {
      assert Keys(rs[i])[j + 1] == rs[i][j + 1].0;
      ValueOfAt(rs[i], j + 1);
    }
  }

  /** Round trip: when every record lists the same keys in the same order,
      the built table is rectangular and reading its rows back gives the
      records unchanged, so nothing is sorted, filtered or deduplicated. */
  lemma RowsOfBuild<V>(rs: seq<Record<V>>)
    requires AllDistinctKeys(rs)
    requires |rs| > 0 && |FirstKeys(rs)| > 0
    requires forall i :: 0 <= i < |rs| ==> Keys(rs[i]) == FirstKeys(rs)
    ensures Build(rs).Success?
    ensures Rectangular(Build(rs).value)
    ensures Rows(Build(rs).value) == rs
  {
    SameKeysHomogeneous(rs);
    BuildHomogeneous(rs);
    var t := Build(rs).value;
    forall i | 0 <= i < |rs|
      ensures Row(t, i) == rs[i]
    {
      BuildRowFields(rs, i);
      RowIsRecord(t, i, rs[i]);
    }
  }
}

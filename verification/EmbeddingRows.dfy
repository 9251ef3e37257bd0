/**
  Putting the rows of an embeddings response into the order of the texts that were sent.
  Rows may carry the index of their text and then come in any order.
 */
module EmbeddingRows {
  import opened Options

  type Vector = seq<real>

  datatype Row = Row(index: Option<int>, vector: Vector)

  /** Every row names a different text, and every text is named. */
  ghost predicate Indexed(rows: seq<Row>, n: nat) {
    && |rows| == n
    && (forall i :: 0 <= i < n ==> rows[i].index.Some? && 0 <= rows[i].index.value < n)
    && (forall i, j :: 0 <= i < j < n ==> rows[i].index != rows[j].index)
  }

  ghost predicate Unindexed(rows: seq<Row>, n: nat) {
    |rows| == n > 0 && forall i :: 0 <= i < n ==> rows[i].index.None?
  }

  /** The response answers the texts with `want`, whichever convention it uses. */
  ghost predicate Answers(rows: seq<Row>, want: seq<Vector>) {
    || (Indexed(rows, |want|) && forall i :: 0 <= i < |rows| ==> rows[i].vector == want[rows[i].index.value])
    || (Unindexed(rows, |want|) && forall i :: 0 <= i < |rows| ==> rows[i].vector == want[i])
  }

  predicate Usable(row: Row, n: nat) {
    row.index.Some? && 0 <= row.index.value < n
  }

  /** The last of the first `k` rows that names slot `s`, if there is one. */
  function LastNaming(rows: seq<Row>, k: nat, n: nat, s: int): Option<Row>
    requires k <= |rows|
  {
    if k == 0 then None
    else if Usable(rows[k - 1], n) && rows[k - 1].index.value == s then Some(rows[k - 1])
    else LastNaming(rows, k - 1, n, s)
  }

  lemma {:induction false} LastNamingIn(rows: seq<Row>, k: nat, n: nat, s: int)
    requires k <= |rows|
    ensures LastNaming(rows, k, n, s).Some? ==>
              LastNaming(rows, k, n, s).value in rows[..k] && LastNaming(rows, k, n, s).value.index == Some(s)
    ensures LastNaming(rows, k, n, s).None? <==> forall i :: 0 <= i < k && Usable(rows[i], n) ==> rows[i].index.value != s
  {
    if k > 0 {
      LastNamingIn(rows, k - 1, n, s);
      assert rows[..k] == rows[..k - 1] + [rows[k - 1]];
    }
  }

  /** The slots after the first `k` rows: each holds the last usable row that names it. */
  ghost predicate Filled(slots: seq<Option<Row>>, rows: seq<Row>, k: nat, n: nat)
    requires k <= |rows|
  {
    && |slots| == |rows|
    && (forall s :: 0 <= s < |slots| ==> slots[s] == LastNaming(rows, k, n, s))
    && (forall i :: 0 <= i < k && Usable(rows[i], n) ==> rows[i].index.value < |slots|)
  }

  lemma FillNext(slots: seq<Option<Row>>, rows: seq<Row>, k: nat, n: nat)
    requires k < |rows| && Filled(slots, rows, k, n)
    ensures !Usable(rows[k], n) ==> Filled(slots, rows, k + 1, n)
    ensures Usable(rows[k], n) && rows[k].index.value < |slots| ==>
      Filled(slots[rows[k].index.value := Some(rows[k])], rows, k + 1, n)
  {
    forall s
      ensures LastNaming(rows, k + 1, n, s) ==
        if Usable(rows[k], n) && rows[k].index.value == s then Some(rows[k]) else LastNaming(rows, k, n, s)
    {
    }
  }

  /** The first pass: rows that name a text go to its slot; `None` if a slot does not exist. */
  method FillSlots(rows: seq<Row>, n: nat) returns (slots: Option<seq<Option<Row>>>)
    ensures slots.Some? ==> Filled(slots.value, rows, |rows|, n)
    ensures Indexed(rows, n) || Unindexed(rows, n) ==> slots.Some?
    ensures Unindexed(rows, n) ==> forall s :: 0 <= s < |slots.value| ==> slots.value[s].None?
  {
    var filled: seq<Option<Row>> := seq(|rows|, _ => None);
    for k := 0 to |rows|
      invariant Filled(filled, rows, k, n)
      invariant Unindexed(rows, n) ==> forall s :: 0 <= s < |filled| ==> filled[s].None?
    {
      hide LastNaming;
      FillNext(filled, rows, k, n);
      if Usable(rows[k], n) {
        if rows[k].index.value >= |filled| {
          return None;
        }
        filled := filled[rows[k].index.value := Some(rows[k])];
      }
    }
    return Some(filled);
  }

  /** The rows in the order of the texts; `None` stands for the errors the program raises. */
  method OrderRows(rows: seq<Row>, n: nat) returns (ordered: Option<seq<Row>>)
    ensures ordered.Some? ==> |ordered.value| == n == |rows|
    ensures ordered.Some? ==>
      || ordered.value == rows
      || forall s :: 0 <= s < n ==> ordered.value[s] in rows && ordered.value[s].index == Some(s)
    ensures Indexed(rows, n) && n > 0 ==>
      ordered.Some? && forall i :: 0 <= i < n ==> ordered.value[rows[i].index.value] == rows[i]
    ensures Unindexed(rows, n) ==> ordered == Some(rows)
  {
    hide Filled, Usable;
    if |rows| == 0 {
      return None;
    }
    var slots := FillSlots(rows, n);
    if slots.None? {
      return None;
    }
    SlotsHoldRows(slots.value, rows, n);
    if Indexed(rows, n) {
      EverySlotFilled(slots.value, rows, n);
      OwnSlot(slots.value, rows, n);
    }
    assert Unindexed(rows, n) ==> slots.value[0].None?;
    var chosen := rows;
    if forall s :: 0 <= s < |slots.value| ==> slots.value[s].Some? {
      chosen := seq(|slots.value|, s requires 0 <= s < |slots.value| => slots.value[s].value);
    }
    if |chosen| != n {
      return None;
    }
    return Some(chosen);
  }

  lemma SlotsHoldRows(slots: seq<Option<Row>>, rows: seq<Row>, n: nat)
    requires Filled(slots, rows, |rows|, n)
    ensures |slots| == |rows|
    ensures forall s :: 0 <= s < |slots| && slots[s].Some? ==> slots[s].value in rows && slots[s].value.index == Some(s)
  {
    forall s | 0 <= s < |slots| && slots[s].Some?
      ensures slots[s].value in rows && slots[s].value.index == Some(s)
    {
      LastNamingIn(rows, |rows|, n, s);
      assert rows[..|rows|] == rows;
    }
  }

  function Below(n: nat): (s: set<int>)
    ensures |s| == n && forall i :: i in s <==> 0 <= i < n
  {
    if n == 0 then {} else Below(n - 1) + {n - 1}
  }

  ghost function Named(rows: seq<Row>): set<int>
    requires forall i :: 0 <= i < |rows| ==> rows[i].index.Some?
  {
    set i | 0 <= i < |rows| :: rows[i].index.value
  }

  lemma {:induction false} NamedSize(rows: seq<Row>)
    requires forall i :: 0 <= i < |rows| ==> rows[i].index.Some?
    requires forall i, j :: 0 <= i < j < |rows| ==> rows[i].index != rows[j].index
    ensures |Named(rows)| == |rows|
  {
    if rows != [] {
      var init, last := rows[..|rows| - 1], rows[|rows| - 1];
      NamedSize(init);
      assert Named(rows) == Named(init) + {last.index.value} by {
        assert forall i :: 0 <= i < |init| ==> init[i] == rows[i];
      }
      assert last.index.value !in Named(init);
    }
  }

  lemma SameSize<T>(a: set<T>, b: set<T>)
    requires a <= b && |a| == |b|
    ensures a == b
  {
    assert b == a + (b - a);
  }

  /** As many different indices as there are slots leave no slot empty. */
  lemma EverySlotFilled(slots: seq<Option<Row>>, rows: seq<Row>, n: nat)
    requires Filled(slots, rows, |rows|, n) && Indexed(rows, n)
    ensures forall s :: 0 <= s < |slots| ==> slots[s].Some?
  {
    NamedSize(rows);
    assert Named(rows) <= Below(n);
    SameSize(Named(rows), Below(n));
    forall s | 0 <= s < |slots| ensures slots[s].Some? {
      assert s in Named(rows);
      var i :| 0 <= i < |rows| && rows[i].index.value == s;
      assert Usable(rows[i], n);
      LastNamingIn(rows, |rows|, n, s);
    }
  }

  /** With distinct indices each slot holds the one row that names it. */
  lemma OwnSlot(slots: seq<Option<Row>>, rows: seq<Row>, n: nat)
    requires Filled(slots, rows, |rows|, n) && Indexed(rows, n)
    ensures forall i :: 0 <= i < n ==> slots[rows[i].index.value] == Some(rows[i])
  {
    forall i | 0 <= i < n ensures slots[rows[i].index.value] == Some(rows[i]) {
      assert Usable(rows[i], n);
      LastNamingIn(rows, |rows|, n, rows[i].index.value);
      var row := slots[rows[i].index.value].value;
      assert row in rows[..|rows|];
      var j :| 0 <= j < |rows| && rows[j] == row;
      assert rows[i].index == rows[j].index;
    }
  }

  /** The vectors in the order of the texts, for every honest response. */
  method OrderedVectors(rows: seq<Row>, n: nat) returns (vectors: Option<seq<Vector>>)
    ensures vectors.Some? ==> |vectors.value| == n && forall i :: 0 <= i < n ==> vectors.value[i] != []
    ensures forall want :: |want| == n > 0 && Answers(rows, want) && [] !in want ==> vectors == Some(want)
  {
    var ordered := OrderRows(rows, n);
    if ordered.None? || exists i :: 0 <= i < |ordered.value| && ordered.value[i].vector == [] {
      forall want | |want| == n > 0 && Answers(rows, want) && [] !in want ensures false {
        HonestOrder(rows, want, ordered);
      }
      return None;
    }
    var out := seq(n, i requires 0 <= i < n => ordered.value[i].vector);
    forall want | |want| == n > 0 && Answers(rows, want) && [] !in want ensures out == want {
      HonestOrder(rows, want, ordered);
    }
    return Some(out);
  }

  lemma HonestOrder(rows: seq<Row>, want: seq<Vector>, ordered: Option<seq<Row>>)
    requires Answers(rows, want) && |want| > 0
    requires Indexed(rows, |want|) ==>
      ordered.Some? && |ordered.value| == |want| &&
      forall i :: 0 <= i < |want| ==> ordered.value[rows[i].index.value] == rows[i]
    requires Unindexed(rows, |want|) ==> ordered == Some(rows)
    ensures ordered.Some? && |ordered.value| == |want|
    ensures forall s :: 0 <= s < |want| ==> ordered.value[s].vector == want[s]
  {
    if Indexed(rows, |want|) {
      var n := |want|;
      NamedSize(rows);
      assert Named(rows) <= Below(n);
      SameSize(Named(rows), Below(n));
      forall s | 0 <= s < n ensures ordered.value[s].vector == want[s] {
        assert s in Named(rows);
        var i :| 0 <= i < |rows| && rows[i].index.value == s;
      }
    }
  }
}

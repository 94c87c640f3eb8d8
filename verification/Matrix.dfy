/** Matrices: row-major building and flattening, in the fixture, in the client and in PubSub values. */
module Matrix {
  import opened Prelude

  /** The rows of a row-major list. */
  function Rows<T>(es: seq<T>, r: nat, c: nat): (rows: seq<seq<T>>)
    requires Times(r, c) <= |es|
    ensures |rows| == r && forall i :: 0 <= i < r ==> |rows[i]| == c
  {
    if r == 0 then [] else Rows(es, r - 1, c) + [es[Times(r - 1, c)..Times(r, c)]]
  }

  lemma {:induction false} TimesMonotone(i: nat, r: nat, c: nat)
    requires i <= r
    ensures Times(i, c) <= Times(r, c)
  {
    if i < r { TimesMonotone(i, r - 1, c); }
  }

  /** Flattening the rows gives back the part of the list they were made of. */
  lemma {:induction false} FlattenRows<T>(es: seq<T>, r: nat, c: nat)
    requires Times(r, c) <= |es|
    ensures Flatten(Rows(es, r, c)) == es[..Times(r, c)]
  {
    if r > 0 {
      FlattenRows(es, r - 1, c);
      FlattenSnoc(Rows(es, r - 1, c), es[Times(r - 1, c)..Times(r, c)]);
    }
  }

  /** And the rows of a flattened matrix are its rows. */
  lemma {:induction false} RowsFlatten<T>(rows: seq<seq<T>>, c: nat)
    requires forall i :: 0 <= i < |rows| ==> |rows[i]| == c
    ensures |Flatten(rows)| == Times(|rows|, c) && Rows(Flatten(rows), |rows|, c) == rows
  {
    if rows != [] {
      var n := |rows| - 1;
      var t, last := rows[..n], rows[n];
      RowsFlatten(t, c);
      FlattenSnoc(t, last);
      assert rows == t + [last];
      RowsPrefix(Flatten(t), Flatten(rows), n, c);
      assert Flatten(rows)[Times(n, c)..Times(n + 1, c)] == last;
    }
  }

  lemma {:induction false} RowsPrefix<T>(s: seq<T>, t: seq<T>, r: nat, c: nat)
    requires s <= t && Times(r, c) <= |s|
    ensures Rows(t, r, c) == Rows(s, r, c)
  {
    if r > 0 {
      RowsPrefix(s, t, r - 1, c);
      assert t[Times(r - 1, c)..Times(r, c)] == s[Times(r - 1, c)..Times(r, c)];
    }
  }

  /** Element (i, j) of the matrix is element i * c + j of the list. */
  lemma {:induction false} RowsAt<T>(es: seq<T>, r: nat, c: nat, i: nat, j: nat)
    requires Times(r, c) <= |es| && i < r && j < c
    ensures i * c + j < |es| && Rows(es, r, c)[i][j] == es[i * c + j]
  {
    TimesIs(i, c);
    TimesMonotone(i + 1, r, c);
    if i < r - 1 {
      RowsAt(es, r - 1, c, i, j);
    }
  }

  // ---- the fixture's matrix (Go)

  datatype BuildError = WrongDimensions | BadItem | NoRow

  function ParseAll<T>(items: seq<string>, parse: string -> Option<T>): Option<seq<T>> {
    if items == [] then Some([])
    else
      var r, x := ParseAll(items[..|items| - 1], parse), parse(items[|items| - 1]);
      if r.Some? && x.Some? then Some(r.value + [x.value]) else None
  }

  lemma {:induction false} ParseAllAppend<T>(a: seq<string>, b: seq<string>, parse: string -> Option<T>)
    ensures ParseAll(a, parse).None? || ParseAll(b, parse).None? ==> ParseAll(a + b, parse).None?
    ensures ParseAll(a, parse).Some? && ParseAll(b, parse).Some? ==>
              ParseAll(a + b, parse) == Some(ParseAll(a, parse).value + ParseAll(b, parse).value)
  {
    if b == [] {
      assert a + b == a;
      assert ParseAll(a, parse).Some? ==> ParseAll(a, parse).value + [] == ParseAll(a, parse).value;
    } else {
      var t, x := b[..|b| - 1], parse(b[|b| - 1]);
      ParseAllAppend(a, t, parse);
      assert (a + b)[..|a + b| - 1] == a + t;
      if ParseAll(a, parse).Some? && ParseAll(t, parse).Some? && x.Some? {
        var u, v := ParseAll(a, parse).value, ParseAll(t, parse).value;
        assert (u + v) + [x.value] == u + (v + [x.value]);
      }
    }
  }

  lemma {:induction false} ParseAllLength<T>(a: seq<string>, parse: string -> Option<T>)
    requires ParseAll(a, parse).Some?
    ensures |ParseAll(a, parse).value| == |a|
  {
    if a != [] { ParseAllLength(a[..|a| - 1], parse); }
  }

  method ParseArray<T>(items: seq<string>, parse: string -> Option<T>) returns (r: Option<seq<T>>)
    ensures r == ParseAll(items, parse)
  {
    var out := [];
    for i := 0 to |items|
      invariant ParseAll(items[..i], parse) == Some(out)
    {
      assert items[..i + 1][..i] == items[..i];
      var x := parse(items[i]);
      if x.None? {
        StopsEarly(items, i + 1, parse);
        return None;
      }
      out := out + [x.value];
    }
    assert items[..|items|] == items;
    return Some(out);
  }

  lemma StopsEarly<T>(items: seq<string>, n: nat, parse: string -> Option<T>)
    requires n <= |items| && ParseAll(items[..n], parse).None?
    ensures ParseAll(items, parse).None?
  {
    assert items == items[..n] + items[n..];
    ParseAllAppend(items[..n], items[n..], parse);
  }

  /** Succeeds exactly for as many readable items as the dimensions say and at least one row, and then
      has every item in its row-major place. */
  method BuildMatrix<T>(items: seq<string>, d0: nat, d1: nat, parse: string -> Option<T>)
    returns (r: Result<seq<seq<T>>, BuildError>)
    ensures d0 * d1 != |items| <==> r.Err? && r.error.WrongDimensions?
    ensures d0 * d1 == |items| && ParseAll(items, parse).None? <==> r.Err? && r.error.BadItem?
    ensures d0 == 0 && |items| == 0 <==> r.Err? && r.error.NoRow?
    ensures r.Ok? ==> |r.value| == d0 && (forall i :: 0 <= i < d0 ==> |r.value[i]| == d1)
                      && ParseAll(items, parse) == Some(Flatten(r.value))
  {
    if d0 * d1 != |items| {
      return Err(WrongDimensions);
    }
    TimesIs(d0, d1);
    var rows: seq<seq<T>> := [];
    for i := 0 to d0
      invariant |rows| == i && Times(i, d1) <= |items|
      invariant forall j :: 0 <= j < i ==> |rows[j]| == d1
      invariant ParseAll(items[..Times(i, d1)], parse) == Some(Flatten(rows))
    {
      TimesIs(i, d1);
      TimesIs(i + 1, d1);
      TimesMonotone(i + 1, d0, d1);
      var slice := items[i * d1..(i + 1) * d1];
      assert items[..Times(i + 1, d1)] == items[..Times(i, d1)] + slice;
      ParseAllAppend(items[..Times(i, d1)], slice, parse);
      var row := ParseArray(slice, parse);
      if row.None? {
        StopsEarly(items, Times(i + 1, d1), parse);
        return Err(BadItem);
      }
      ParseAllLength(slice, parse);
      FlattenSnoc(rows, row.value);
      rows := rows + [row.value];
    }
    assert items[..Times(d0, d1)] == items;
    if d0 == 0 {
      return Err(NoRow);
    }
    return Ok(rows);
  }

  // ---- the client's flatten (Go)

  /** A decoded JSON value; `Nil` is what an empty Go slice that was never grown prints as. */
  datatype Value = Leaf(text: string) | List(items: seq<Value>) | Nil

  predicate AllLists(rows: seq<Value>) { forall i :: 0 <= i < |rows| ==> rows[i].List? }

  function Joined(rows: seq<Value>): seq<Value>
    requires AllLists(rows)
  {
    if rows == [] then [] else Joined(rows[..|rows| - 1]) + rows[|rows| - 1].items
  }

  /** Only a list of lists is laid out; anything else stays as it is. */
  method FlattenValue(value: Value) returns (r: Value)
    ensures !value.List? || !AllLists(value.items) ==> r == value
    ensures value.List? && AllLists(value.items) ==>
              var j := Joined(value.items); r == if j == [] then Nil else List(j)
  {
    if !value.List? {
      return value;
    }
    var rows, out := value.items, [];
    for i := 0 to |rows|
      invariant AllLists(rows[..i]) && out == Joined(rows[..i])
    {
      if !rows[i].List? {
        return value;
      }
      assert rows[..i + 1][..i] == rows[..i];
      out := out + rows[i].items;
    }
    assert rows[..|rows|] == rows;
    return if out == [] then Nil else List(out);
  }

  function ValueRows(rows: seq<seq<Value>>): (r: seq<Value>)
    ensures |r| == |rows| && AllLists(r) && forall i :: 0 <= i < |rows| ==> r[i] == List(rows[i])
  {
    seq(|rows|, i requires 0 <= i < |rows| => List(rows[i]))
  }

  lemma {:induction false} JoinedIsFlatten(rows: seq<seq<Value>>)
    ensures Joined(ValueRows(rows)) == Flatten(rows)
  {
    if rows != [] {
      var n := |rows| - 1;
      JoinedIsFlatten(rows[..n]);
      assert ValueRows(rows)[..n] == ValueRows(rows[..n]);
      FlattenSnoc(rows[..n], rows[n]);
      assert rows == rows[..n] + [rows[n]];
    }
  }

  /** Building the row-major matrix of r x c values and flattening it gives the values back. */
  method BuildThenFlatten(items: seq<string>, r: nat, c: nat, parse: string -> Option<Value>) returns (out: Value)
    requires r > 0 && c > 0 && r * c == |items| && ParseAll(items, parse).Some?
    ensures out == List(ParseAll(items, parse).value)
  {
    var m := BuildMatrix(items, r, c, parse);
    out := FlattenValue(List(ValueRows(m.value)));
    JoinedIsFlatten(m.value);
    ParseAllLength(items, parse);
    assert r * c > 0;
  }
}

/** Variable-length column pages: an offset table of n + 1 u32 and the row values. */
module SerializedPage {
  import opened Bytes

  /** Where each row starts in the values region, and where the last one ends. */
  function Offsets(rows: seq<bytes>): (r: seq<nat>)
    ensures |r| == |rows| + 1
    ensures forall i :: 0 <= i <= |rows| ==> r[i] == |Concat(rows[..i])|
  {
    seq(|rows| + 1, i requires 0 <= i <= |rows| => |Concat(rows[..i])|)
  }

  function Off(n: nat): (s: bytes) ensures |s| == 4 { Le(n, 4) }

  function Table(offsets: seq<nat>): bytes { Concat(Parts(Off, offsets)) }

  /** The page body of `rows`. */
  function EncRows(rows: seq<bytes>): bytes { Table(Offsets(rows)) + Concat(rows) }

  /** The rows `encode` takes without panicking. */
  predicate RowsFit(rows: seq<bytes>) { |Concat(rows)| < 0x1_0000_0000 }

  predicate IsPage(data: bytes, n: nat, rows: seq<bytes>) {
    |rows| == n && RowsFit(rows) && data == EncRows(rows)
  }

  ghost function ParseRows(data: bytes, n: nat): (r: Option<seq<bytes>>)
    ensures r.Some? ==> IsPage(data, n, r.value)
  {
    if rows: seq<bytes> :| IsPage(data, n, rows) then Some(rows) else None
  }

  lemma TableLength(offsets: seq<nat>)
    ensures |Table(offsets)| == 4 * |offsets|
  {
    ConcatLength(Parts(Off, offsets), 4);
  }

  lemma ConcatMonotone(rows: seq<bytes>, i: nat)
    requires i <= |rows|
    ensures |Concat(rows[..i])| <= |Concat(rows)|
    ensures i < |rows| ==> Concat(rows[..i + 1]) == Concat(rows[..i]) + rows[i]
    ensures i < |rows| ==> |Concat(rows[..i + 1])| <= |Concat(rows)|
  {
    if i < |rows| {
      ConcatSplit(rows, i);
    } else {
      assert rows[..i] == rows;
    }
  }

  /** serialized_page::encode: the running total first, then the values. */
  method Encode(rows: seq<bytes>) returns (out: bytes)
    requires RowsFit(rows)
    ensures out == EncRows(rows)
  {
    ghost var offs := Offsets(rows);
    var acc: u32 := 0;
    out := Le32(acc);
    assert offs[..1] == [0] && Concat(rows[..0]) == [];
    TableOne(0);
    for i := 0 to |rows|
      invariant acc == |Concat(rows[..i])|
      invariant out == Table(offs[..i + 1])
    {
      ConcatMonotone(rows, i);
      acc := acc + |rows[i]|;
      PartsStep(Off, offs, i + 1);
      out := out + Le32(acc);
    }
    assert offs[..|rows| + 1] == offs;
    ghost var table := out;
    for i := 0 to |rows|
      invariant out == table + Concat(rows[..i])
    {
      ConcatMonotone(rows, i);
      Assoc(table, Concat(rows[..i]), rows[i]);
      out := out + rows[i];
    }
    assert rows[..|rows|] == rows;
  }

  lemma TableOne(n: nat)
    ensures Table([n]) == Off(n)
  {
    assert Parts(Off, [n]) == [Off(n)];
    ConcatOne(Off(n));
  }

  /** serialized_page::encoded_len: the body length, from the offset table alone. */
  function EncodedLen(data: bytes, n: nat): Option<nat> {
    if |data| < 4 * (n + 1) then None
    else Some(4 * (n + 1) + Read32(data, 4 * n).value)
  }

  lemma {:induction false} TableReads(data: bytes, offsets: seq<nat>, k: nat)
    requires k < |offsets| && At(data, 0, Table(offsets)) && offsets[k] < 0x1_0000_0000
    ensures Read32(data, 4 * k) == Some(offsets[k])
  {
    AtElement(data, 0, Off, offsets, k);
    TableLength(offsets[..k]);
    Read32At(data, 4 * k, offsets[k]);
  }

  lemma {:induction false} TableFromReads(data: bytes, offsets: seq<nat>)
    requires 4 * |offsets| <= |data|
    requires forall k :: 0 <= k < |offsets| ==> offsets[k] < 0x1_0000_0000 && Read32(data, 4 * k) == Some(offsets[k])
    ensures At(data, 0, Table(offsets))
  {
    hide Read32;
    if |offsets| == 0 {
      AtEmpty(data, 0);
    } else {
      var k := |offsets| - 1;
      TableFromReads(data, offsets[..k]);
      TableLength(offsets[..k]);
      PartsPush(Off, offsets[..k], offsets[k]);
      assert offsets[..k] + [offsets[k]] == offsets;
      Read32At(data, 4 * k, offsets[k]);
      AtConcat(data, 0, Table(offsets[..k]), Off(offsets[k]));
    }
  }

  lemma PageReads(data: bytes, n: nat, rows: seq<bytes>, i: nat)
    requires IsPage(data, n, rows) && i <= n
    ensures 4 * (n + 1) <= |data| && |Concat(rows[..i])| <= |Concat(rows)|
    ensures Read32(data, 4 * i) == Some(|Concat(rows[..i])|)
    ensures data[4 * (n + 1)..] == Concat(rows)
  {
    var t := Offsets(rows);
    TableLength(t);
    ConcatMonotone(rows, i);
    AtConcat(data, 0, Table(t), Concat(rows));
    TableReads(data, t, i);
  }

  /** encoded_len of any file region that starts with the page is the page's length:
      what lies behind the offset table does not matter. */
  lemma EncodedLenIsLength(rows: seq<bytes>, data: bytes)
    requires RowsFit(rows) && At(data, 0, Table(Offsets(rows)))
    ensures EncodedLen(data, |rows|) == Some(|EncRows(rows)|)
  {
    var t := Offsets(rows);
    TableLength(t);
    assert rows[..|rows|] == rows;
    TableReads(data, t, |rows|);
  }

  lemma PageFromSplit(data: bytes, n: nat, rows: seq<bytes>)
    requires |rows| == n && 4 * (n + 1) <= |data|
    requires Concat(rows) == data[4 * (n + 1)..]
    requires forall i {:trigger rows[..i]} :: 0 <= i <= n ==> Read32(data, 4 * i) == Some(|Concat(rows[..i])|)
    ensures IsPage(data, n, rows)
  {
    var t := Offsets(rows);
    assert rows[..n] == rows;
    assert Read32(data, 4 * n) == Some(|Concat(rows[..n])|);
    forall k | 0 <= k < |t| ensures t[k] < 0x1_0000_0000 && Read32(data, 4 * k) == Some(t[k]) {
      assert t[k] == |Concat(rows[..k])|;
    }
    TableFromReads(data, t);
    TableLength(t);
    assert data == data[..4 * (n + 1)] + data[4 * (n + 1)..];
  }

  /** serialized_page::decode: accepts exactly the images of `encode`. */
  method Decode(data: bytes, n: nat) returns (r: Option<seq<bytes>>)
    ensures forall rows {:trigger IsPage(data, n, rows)} :: IsPage(data, n, rows) <==> r == Some(rows)
  {
    hide EncRows, Concat, Read32, IsPage;
    forall rows {:trigger IsPage(data, n, rows)} | IsPage(data, n, rows) ensures PageShape(data, n, rows) {
      PageHasShape(data, n, rows);
    }
    if |data| < 4 * (n + 1) {
      return None;
    }
    if Read32(data, 0) != Some(0) {
      return None;
    }
    var values := data[4 * (n + 1)..];
    if Read32(data, 4 * n) != Some(|values|) {
      return None;
    }
    var out: seq<bytes> := [];
    EmptyConcat();
    for i := 0 to n
      invariant |out| == i
      invariant forall k {:trigger out[..k]} :: 0 <= k <= i ==> Read32(data, 4 * k) == Some(|Concat(out[..k])|)
      invariant |Concat(out)| <= |values| && Concat(out) == values[..|Concat(out)|]
      invariant forall rows {:trigger IsPage(data, n, rows)} :: IsPage(data, n, rows) ==> rows[..i] == out
    {
      assert out[..i] == out;
      var start, end := Read32(data, 4 * i).value, Read32(data, 4 * (i + 1)).value;
      forall rows {:trigger IsPage(data, n, rows)} | IsPage(data, n, rows)
        ensures start <= end <= |values| && rows[..i + 1] == out + [values[start..end]]
      {
        ShapeRow(data, n, rows, i);
      }
      if end < start || end > |values| {
        return None;
      }
      ConcatPush(out, values[start..end]);
      out := out + [values[start..end]];
      assert out[..i + 1] == out;
      assert forall k :: 0 <= k <= i ==> out[..k] == out[..i][..k];
    }
    assert out[..n] == out;
    PageFromSplit(data, n, out);
    forall rows {:trigger IsPage(data, n, rows)} | IsPage(data, n, rows) ensures rows == out {
      assert rows[..n] == rows;
    }
    return Some(out);
  }

  lemma EmptyConcat()
    ensures Concat([]) == []
  {
  }

  predicate PageShape(data: bytes, n: nat, rows: seq<bytes>) {
    && |rows| == n && 4 * (n + 1) <= |data|
    && Read32(data, 0) == Some(0)
    && Read32(data, 4 * n) == Some(|data| - 4 * (n + 1))
  }

  lemma PageHasShape(data: bytes, n: nat, rows: seq<bytes>)
    requires IsPage(data, n, rows)
    ensures PageShape(data, n, rows)
  {
    PageReads(data, n, rows, 0);
    PageReads(data, n, rows, n);
    assert rows[..n] == rows && rows[..0] == [];
  }

  lemma ShapeRow(data: bytes, n: nat, rows: seq<bytes>, i: nat)
    requires IsPage(data, n, rows) && i < n
    ensures 4 * (n + 1) <= |data|
    ensures
      var values := data[4 * (n + 1)..];
      var start, end := Read32(data, 4 * i), Read32(data, 4 * (i + 1));
      && start.Some? && end.Some? && start.value <= end.value <= |values|
      && rows[..i + 1] == rows[..i] + [values[start.value..end.value]]
  {
    PageReads(data, n, rows, i);
    PageReads(data, n, rows, i + 1);
    hide Concat, Read32, IsPage;
    ConcatSplit(rows, i);
    Middle(Concat(rows[..i]), rows[i], Concat(rows[i + 1..]));
    assert rows[..i + 1] == rows[..i] + [rows[i]];
  }

  /** The decoder's exactness as a law about pages: the bytes of a page determine its rows. */
  lemma PageUnique(data: bytes, n: nat, a: seq<bytes>, b: seq<bytes>)
    requires IsPage(data, n, a) && IsPage(data, n, b)
    ensures a == b
  {
    PageRowsEqual(data, n, a, b, n);
    assert a[..n] == a && b[..n] == b;
  }

  lemma {:induction false} PageRowsEqual(data: bytes, n: nat, a: seq<bytes>, b: seq<bytes>, i: nat)
    requires IsPage(data, n, a) && IsPage(data, n, b) && i <= n
    ensures a[..i] == b[..i]
  {
    if i != 0 {
      PageRowsEqual(data, n, a, b, i - 1);
      ShapeRow(data, n, a, i - 1);
      ShapeRow(data, n, b, i - 1);
    }
  }

  /** Round trip. */
  lemma EncodedRowsParse(rows: seq<bytes>)
    requires RowsFit(rows)
    ensures ParseRows(EncRows(rows), |rows|) == Some(rows)
  {
    assert IsPage(EncRows(rows), |rows|, rows);
    PageUnique(EncRows(rows), |rows|, rows, ParseRows(EncRows(rows), |rows|).value);
  }
}

/** Streaming the rows of a result set in payloads. */
module Streaming {
  import opened Truth

  const PAYLOAD_RESULTSET_ROWS := 1000

  class JsonArray<T> {
    var items: seq<T>

    constructor ()
      ensures items == []
    {
      items := [];
    }

    method Put(x: T)
      modifies this
      ensures items == old(items) + [x]
    {
      items := items + [x];
    }
  }

  /** The number of payloads of n rows. */
  function PayloadsOf(n: nat): nat {
    (n + PAYLOAD_RESULTSET_ROWS - 1) / PAYLOAD_RESULTSET_ROWS
  }

  function UpTo(n: nat, k: nat): nat {
    if PAYLOAD_RESULTSET_ROWS * (k + 1) < n then PAYLOAD_RESULTSET_ROWS * (k + 1) else n
  }

  /** Payload k without a type is the k-th slice of the rows; with a type it is everything so far. */
  function PayloadOf<T>(rows: seq<T>, typed: bool, k: nat): seq<T>
    requires k < PayloadsOf(|rows|)
  {
    if typed then rows[..UpTo(|rows|, k)] else rows[PAYLOAD_RESULTSET_ROWS * k..UpTo(|rows|, k)]
  }

  function Payloads<T>(rows: seq<T>, typed: bool): seq<seq<T>> {
    seq(PayloadsOf(|rows|), k requires 0 <= k < PayloadsOf(|rows|) => PayloadOf(rows, typed, k))
  }

  /**
   After k full payloads and some rows, the array holds those rows when there is no type: a flush empties it. With a
   type it holds all rows so far.
   */
  ghost predicate Holds<T>(items: seq<T>, rows: seq<T>, typed: bool, k: nat, i: nat)
    requires PAYLOAD_RESULTSET_ROWS * k <= i <= |rows|
  {
    items == if typed then rows[..i] else rows[PAYLOAD_RESULTSET_ROWS * k..i]
  }

  /**
   The row loop: every full thousand is sent, then the rest. With a type, an object holds the array under its name.
   */
  method Stream<T>(rows: seq<T>, typeName: Option<string>) returns (rowCount: nat, sent: seq<seq<T>>)
    ensures rowCount == |rows| && sent == Payloads(rows, typeName.Some?)
  {
    ghost var typed, k, open := typeName.Some?, 0, 0;
    rowCount, sent := 0, [];
    var jsonArray := new JsonArray<T>();
    var json: map<string, JsonArray<T>> := map[];
    while rowCount < |rows|
      invariant rowCount == PAYLOAD_RESULTSET_ROWS * k + open <= |rows| && 0 <= open < PAYLOAD_RESULTSET_ROWS
      invariant fresh(jsonArray) && Holds(jsonArray.items, rows, typed, k, rowCount)
      invariant typed && open > 0 ==> json == map[typeName.value := jsonArray]
      invariant typed && open == 0 ==> json == map[]
      invariant k <= PayloadsOf(|rows|) && sent == Payloads(rows, typed)[..k]
    {
      var row := rows[rowCount];
      rowCount := rowCount + 1;
      jsonArray.Put(row);
      if typeName.Some? {
        json := json[typeName.value := jsonArray];
      }
      Remainder(k, open);
      open := open + 1;
      assert Holds(jsonArray.items, rows, typed, k, rowCount);
      if rowCount % PAYLOAD_RESULTSET_ROWS == 0 {
        NextPayload(rows, typed, k, rowCount);
        if typeName.Some? {
          sent := sent + [json[typeName.value].items];
          json := map[];
        } else {
          sent := sent + [jsonArray.items];
          jsonArray := new JsonArray<T>();
        }
        k, open := k + 1, 0;
      }
    }
    Remainder(k, open - 1);
    if rowCount % PAYLOAD_RESULTSET_ROWS != 0 {
      NextPayload(rows, typed, k, rowCount);
      sent := sent + [if typeName.Some? then json[typeName.value].items else jsonArray.items];
    }
    assert Payloads(rows, typed)[..PayloadsOf(|rows|)] == Payloads(rows, typed);
  }

  lemma Remainder(k: nat, open: int)
    requires -1 <= open < PAYLOAD_RESULTSET_ROWS
    ensures (PAYLOAD_RESULTSET_ROWS * k + open + 1) % PAYLOAD_RESULTSET_ROWS == 0 <==>
              open == -1 || open + 1 == PAYLOAD_RESULTSET_ROWS
    ensures open >= 0 ==> PayloadsOf(PAYLOAD_RESULTSET_ROWS * k + open + 1) == k + 1
    ensures open == -1 ==> PayloadsOf(PAYLOAD_RESULTSET_ROWS * k + open + 1) == k
  {
  }

  /** What is held when k + 1 thousand rows are read, or all of them, is payload k. */
  lemma NextPayload<T>(rows: seq<T>, typed: bool, k: nat, i: nat)
    requires PAYLOAD_RESULTSET_ROWS * k < i <= |rows|
    requires i == PAYLOAD_RESULTSET_ROWS * (k + 1) || (i == |rows| && i < PAYLOAD_RESULTSET_ROWS * (k + 1))
    ensures k < PayloadsOf(|rows|)
    ensures Payloads(rows, typed)[..k + 1] ==
              Payloads(rows, typed)[..k] + [if typed then rows[..i] else rows[PAYLOAD_RESULTSET_ROWS * k..i]]
  {
    assert UpTo(|rows|, k) == i;
  }

  // ---------------------------------------------------------------- conservation

  function Concat<T>(parts: seq<seq<T>>): seq<T> {
    if parts == [] then [] else Concat(parts[..|parts| - 1]) + parts[|parts| - 1]
  }

  lemma {:induction false} FirstPayloads<T>(rows: seq<T>, k: nat)
    requires k <= PayloadsOf(|rows|)
    ensures Concat(Payloads(rows, false)[..k]) == rows[..if k == 0 then 0 else UpTo(|rows|, k - 1)]
  {
    var parts := Payloads(rows, false);
    if k > 0 {
      FirstPayloads(rows, k - 1);
      assert parts[..k][..k - 1] == parts[..k - 1] && parts[..k][k - 1] == parts[k - 1];
    }
  }

  /** Untyped payloads conserve the rows: in order, a thousand in each but the last, which has at least one. */
  lemma UntypedConserves<T>(rows: seq<T>)
    ensures Concat(Payloads(rows, false)) == rows
    ensures forall k :: 0 <= k < |Payloads(rows, false)| - 1 ==> |Payloads(rows, false)[k]| == 1000
    ensures forall p :: p in Payloads(rows, false) ==> 1 <= |p| <= 1000
  {
    var n := PayloadsOf(|rows|);
    FirstPayloads(rows, n);
    assert Payloads(rows, false)[..n] == Payloads(rows, false);
  }

  /** A typed payload repeats everything an untyped stream of the rows has sent by then. */
  lemma TypedRepeats<T>(rows: seq<T>, k: nat)
    requires k < |Payloads(rows, true)|
    ensures |Payloads(rows, true)| == |Payloads(rows, false)|
    ensures Payloads(rows, true)[k] == Concat(Payloads(rows, false)[..k + 1])
  {
    FirstPayloads(rows, k + 1);
  }

  lemma {:induction false} ConcatIsLong<T>(parts: seq<seq<T>>, k: nat)
    requires k < |parts|
    ensures |Concat(parts)| >= |parts[k]| + if k > 0 then |parts[0]| else 0
    decreases |parts|
  {
    var init := parts[..|parts| - 1];
    if k < |init| {
      ConcatIsLong(init, k);
    } else if k > 0 {
      ConcatIsLong(init, 0);
    }
  }

  /** Typed payloads conserve the rows only when one payload is enough: each further one repeats all rows before it. */
  lemma TypedConservesIff<T>(rows: seq<T>)
    ensures Concat(Payloads(rows, true)) == rows <==> |rows| <= 1000
  {
    var parts := Payloads(rows, true);
    if |rows| > PAYLOAD_RESULTSET_ROWS {
      var last := |parts| - 1;
      assert parts[last] == rows;
      ConcatIsLong(parts, last);
    } else if rows != [] {
      assert |parts| == 1 && parts[0] == rows && parts[..0] == [];
    }
  }

  /** The rows sent in k full payloads of a typed stream. */
  function Triangle(k: nat): nat {
    if k == 0 then 0 else Triangle(k - 1) + PAYLOAD_RESULTSET_ROWS * k
  }

  lemma {:induction false} TriangleIs(k: nat)
    ensures Triangle(k) == (PAYLOAD_RESULTSET_ROWS / 2) * (k * (k + 1))
  {
    if k > 0 {
      TriangleIs(k - 1);
      assert k * (k + 1) == (k - 1) * k + 2 * k;
    }
  }

  lemma FullPayload<T>(rows: seq<T>, k: nat)
    requires 0 < k && PAYLOAD_RESULTSET_ROWS * k <= |rows|
    ensures k <= PayloadsOf(|rows|) && |Payloads(rows, true)[k - 1]| == PAYLOAD_RESULTSET_ROWS * k
  {
  }

  lemma ConcatSnoc<T>(parts: seq<seq<T>>, k: nat)
    requires 0 < k <= |parts|
    ensures |Concat(parts[..k])| == |Concat(parts[..k - 1])| + |parts[k - 1]|
  {
    assert parts[..k][..k - 1] == parts[..k - 1] && parts[..k][k - 1] == parts[k - 1];
  }

  lemma {:induction false} FullTypedPayloads<T>(rows: seq<T>, k: nat)
    requires PAYLOAD_RESULTSET_ROWS * k <= |rows|
    ensures k <= PayloadsOf(|rows|) && |Concat(Payloads(rows, true)[..k])| == Triangle(k)
  {
    if k > 0 {
      FullTypedPayloads(rows, k - 1);
      FullPayload(rows, k);
      ConcatSnoc(Payloads(rows, true), k);
    }
  }

  /** How many rows a typed stream of n = 1000 k + r rows sends: 500 k (k + 1), and n more when r > 0. */
  lemma TypedTotal<T>(rows: seq<T>, k: nat, r: nat)
    requires |rows| == 1000 * k + r && r < 1000
    ensures |Concat(Payloads(rows, true))| == 500 * (k * (k + 1)) + if r == 0 then 0 else |rows|
  {
    var parts := Payloads(rows, true);
    FullTypedPayloads(rows, k);
    TriangleIs(k);
    Remainder(k, r - 1);
    if r == 0 {
      assert parts[..k] == parts;
    } else {
      assert |parts| == k + 1 && parts[..|parts| - 1] == parts[..k] && |parts[k]| == |rows|;
    }
  }
}

/**
 * Roster partitioner of coffee-chats.py: `pair_people` splits the rows of the
 * roster sheet (name, group, email, timezone tag) into the two groups by the
 * tag in the second column, and the scheduler pairs every group1 row with
 * every group2 row.
 */
module Roster {

  /** One roster row: columns A..D of the sheet. */
  datatype Row = Row(name: string, group: string, email: string, tz: string)

  const Group1: string := "group1"
  const Group2: string := "group2"

  /** The rows of `rows` labelled `tag`, in input order. */
  function Filter(rows: seq<Row>, tag: string): (r: seq<Row>)
    ensures |r| <= |rows|
    ensures forall x :: x in r <==> x in rows && x.group == tag
  {
    if rows == [] then []
    else
      var last := rows[|rows| - 1];
      Filter(rows[..|rows| - 1], tag) + (if last.group == tag then [last] else [])
  }

  /** Filtering commutes with concatenation, so the output keeps the input order. */
  lemma {:induction false} FilterConcat(a: seq<Row>, b: seq<Row>, tag: string)
    ensures Filter(a + b, tag) == Filter(a, tag) + Filter(b, tag)
    decreases |b|
  {
    if b == [] {
      assert a + b == a;
    } else {
      var last := b[|b| - 1];
      assert (a + b)[..|a + b| - 1] == a + b[..|b| - 1];
      FilterConcat(a, b[..|b| - 1], tag);
    }
  }

  /** The two groups never hold more rows than the roster: other labels are dropped. */
  lemma {:induction false} PartitionBound(rows: seq<Row>)
    ensures |Filter(rows, Group1)| + |Filter(rows, Group2)| <= |rows|
  {
    if rows != [] {
      PartitionBound(rows[..|rows| - 1]);
    }
  }

  /** pair_people: one pass over the roster, appending to group1 or group2. */
  method PairPeople(data: seq<Row>) returns (group1: seq<Row>, group2: seq<Row>)
    ensures group1 == Filter(data, Group1)
    ensures group2 == Filter(data, Group2)
  {
    group1, group2 := [], [];
    var i := 0;
    while i < |data|
      invariant 0 <= i <= |data|
      invariant group1 == Filter(data[..i], Group1)
      invariant group2 == Filter(data[..i], Group2)
    {
      var row := data[i];
      assert data[..i + 1][..i] == data[..i];
      if row.group == Group1 {
        group1 := group1 + [row];
      } else if row.group == Group2 {
        group2 := group2 + [row];
      }
      i := i + 1;
    }
    assert data[..i] == data;
  }

  /** The candidate pairs: every group1 row with every group2 row, group1 outermost. */
  function CrossProduct(group1: seq<Row>, group2: seq<Row>): (r: seq<(Row, Row)>)
    ensures |r| == |group1| * |group2|
    ensures forall p :: p in r <==> p.0 in group1 && p.1 in group2
  {
    if group1 == [] then []
    else
      var first := seq(|group2|, j requires 0 <= j < |group2| => (group1[0], group2[j]));
      var rest := CrossProduct(group1[1..], group2);
      assert forall p :: p in first <==> p.0 == group1[0] && p.1 in group2 by {
        forall p: (Row, Row) | p.0 == group1[0] && p.1 in group2 ensures p in first {
          var j :| 0 <= j < |group2| && group2[j] == p.1;
          assert first[j] == p;
        }
      }
      assert forall x :: x in group1 <==> x == group1[0] || x in group1[1..];
      first + rest
  }
}

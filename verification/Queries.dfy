/** Looking rows up in a table, and counting them. */
module Queries {
  import opened Options

  /** The first row that matches, as `query.filter(...).first()`. */
  function First<T>(rows: seq<T>, wanted: T -> bool): (k: Option<nat>)
    ensures k.Some? ==> k.value < |rows| && wanted(rows[k.value])
    ensures k.Some? ==> forall j :: 0 <= j < k.value ==> !wanted(rows[j])
    ensures k.None? ==> forall j :: 0 <= j < |rows| ==> !wanted(rows[j])
  {
    if rows == [] then None
    else
      var n := |rows| - 1;
      var k := First(rows[..n], wanted);
      if k.Some? then k else if wanted(rows[n]) then Some(n) else None
  }

  function One(b: bool): nat {
    if b then 1 else 0
  }
}

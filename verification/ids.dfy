/** Identifier allocation for new appointments and customers: the largest id
    already in the table, plus one, in Java `int` arithmetic. */
module Ids {

  import opened Wrappers

  const IntMin := -0x8000_0000
  const IntMax := 0x7fff_ffff

  predicate IsJavaInt(x: int)
  {
    IntMin <= x <= IntMax
  }

  /** Java's 32-bit two's-complement wrap-around. */
  function Wrap(x: int): (r: int)
    ensures IsJavaInt(r)
    ensures IsJavaInt(x) ==> r == x
  {
    (x - IntMin) % 0x1_0000_0000 + IntMin
  }

  /** The largest element: `Collections.sort`, `Collections.reverse`, `get(0)`. */
  function Max(s: seq<int>): (m: int)
    requires |s| > 0
    ensures m in s
    ensures forall i :: 0 <= i < |s| ==> s[i] <= m
  {
    if |s| == 1 then s[0]
    else
      var m := Max(s[1..]);
      if s[0] >= m then s[0] else m
  }

  /** The id a new row gets from the ids already stored. An empty table makes
      `get(0)` throw, which nothing catches: no id. */
  function NextId(ids: seq<int>): (r: Option<int>)
    ensures r.Some? <==> |ids| > 0
    ensures r.Some? ==> r.value == Wrap(Max(ids) + 1)
  {
    if |ids| == 0 then None else Some(Wrap(Max(ids) + 1))
  }

  /** Below the top of the `int` range, the new id differs from every stored id. */
  lemma NextIdFresh(ids: seq<int>)
    requires |ids| > 0
    requires forall i :: 0 <= i < |ids| ==> IsJavaInt(ids[i])
    requires Max(ids) < IntMax
    ensures NextId(ids).value !in ids
    ensures forall i :: 0 <= i < |ids| ==> ids[i] < NextId(ids).value
  {
  }

  /** When the largest id is `Integer.MAX_VALUE` the new id wraps to `Integer.MIN_VALUE`. */
  lemma NextIdWraps(ids: seq<int>)
    requires |ids| > 0 && Max(ids) == IntMax
    ensures NextId(ids) == Some(IntMin)
  {
    assert IntMax + 1 - IntMin == 0x1_0000_0000;
  }

  /** `if (id == null) id = max + 1`: the id is computed only while none is held,
      so a second call keeps the first one whatever the table holds by then. */
  function AllocateId(current: Option<int>, ids: seq<int>): (r: Option<int>)
    ensures current.Some? ==> r == current
    ensures current.None? ==> (r.Some? <==> |ids| > 0)
    ensures current.None? && |ids| > 0 ==> r.value == Wrap(Max(ids) + 1)
    ensures current.None? && |ids| > 0 && Max(ids) < IntMax
            && (forall i :: 0 <= i < |ids| ==> IsJavaInt(ids[i])) ==>
              r.value !in ids && forall i :: 0 <= i < |ids| ==> ids[i] < r.value
  {
    if current.Some? then current
    else if |ids| > 0 && Max(ids) < IntMax && (forall i :: 0 <= i < |ids| ==> IsJavaInt(ids[i])) then
      NextIdFresh(ids);
      NextId(ids)
    else NextId(ids)
  }

  lemma AllocateIdStable(current: Option<int>, ids: seq<int>, later: seq<int>)
    requires AllocateId(current, ids).Some?
    ensures AllocateId(AllocateId(current, ids), later) == AllocateId(current, ids)
  {
  }
}

/** The hash handle embedded in every element, and what it means for handles to form the
    application-order list. */
module Handles {

  type Key = seq<bv8>

  /** One handle per element: the handle stands for the element that embeds it. */
  class Handle {
    const key: Key
    var hashv: nat
    var next: Handle?
    var prev: Handle?
    var hhNext: Handle?
    var hhPrev: Handle?

    constructor (key: Key)
      ensures this.key == key
    {
      this.key := key;
      hashv := 0;
      next, prev, hhNext, hhPrev := null, null, null, null;
    }
  }

  ghost predicate Distinct(s: seq<Handle>) {
    forall i, j :: 0 <= i < j < |s| ==> s[i] != s[j]
  }

  ghost predicate Apart(s: seq<Handle>, t: seq<Handle>) {
    forall i, j :: 0 <= i < |s| && 0 <= j < |t| ==> s[i] != t[j]
  }

  function First(s: seq<Handle>): Handle? {
    if |s| == 0 then null else s[0]
  }

  function Last(s: seq<Handle>): Handle? {
    if |s| == 0 then null else s[|s| - 1]
  }

  /** Inside `s`, `next` leads from each handle to the following one; where the last one leads
      is left open. */
  ghost predicate NextInside(s: seq<Handle>)
    reads s`next
  {
    forall i :: 0 <= i < |s| - 1 ==> s[i].next == s[i + 1]
  }

  ghost predicate PrevInside(s: seq<Handle>)
    reads s`prev
  {
    && (s != [] ==> s[0].prev == null)
    && forall i :: 0 < i < |s| ==> s[i].prev == s[i - 1]
  }

  /** `s` is a complete doubly linked list in application order. */
  ghost predicate AppOrder(s: seq<Handle>)
    reads s`next, s`prev
  {
    && Distinct(s)
    && NextInside(s) && PrevInside(s)
    && (s != [] ==> s[|s| - 1].next == null)
  }
}

/** The `esp_video_buffer` element pool the hardware encoders stage frames
    in: a fixed number of elements, each carrying an ownership state
    (the `ELEMENT_IS_FREE` / `ELEMENT_SET_*` macros) and a valid size. */
module VideoBuffers {
  import opened Common

  /** The four element states the encoders set and test. */
  datatype ElementState = Free | Allocated | Queued | Active

  datatype Element = Element(state: ElementState, validSize: nat)

  /** An element that `esp_video_buffer_create` hands out: free and empty. */
  const FRESH_ELEMENT: Element := Element(Free, 0)

  /** The index of the lowest free element, or -1 when every element is
      owned by someone. */
  function FirstFree(s: seq<Element>): (r: int)
    ensures -1 <= r < |s|
    ensures r >= 0 ==> s[r].state == Free && forall j :: 0 <= j < r ==> s[j].state != Free
    ensures r < 0 <==> forall j :: 0 <= j < |s| ==> s[j].state != Free
  {
    if |s| == 0 then -1
    else if s[0].state == Free then 0
    else
      var r := FirstFree(s[1..]);
      assert forall j :: 1 <= j < |s| ==> s[j] == s[1..][j - 1];
      if r < 0 then -1 else r + 1
  }

  /** The number of free elements. */
  function FreeCount(s: seq<Element>): (n: nat)
    ensures n <= |s|
  {
    if |s| == 0 then 0
    else (if s[0].state == Free then 1 else 0) + FreeCount(s[1..])
  }

  /** A pool with a free element has a positive free count, and one
      without has none. */
  lemma {:induction false} FreeCountZero(s: seq<Element>)
    ensures FreeCount(s) == 0 <==> FirstFree(s) < 0
  {
    if |s| > 0 {
      FreeCountZero(s[1..]);
    }
  }

  /** Replacing one element changes the free count by the change in that
      element's freedom and nothing else. */
  lemma {:induction false} FreeCountUpdate(s: seq<Element>, i: nat, e: Element)
    requires i < |s|
    ensures FreeCount(s[i := e]) ==
      FreeCount(s) - (if s[i].state == Free then 1 else 0) + (if e.state == Free then 1 else 0)
  {
    if i == 0 {
      assert s[i := e][1..] == s[1..];
    } else {
      assert s[i := e][1..] == s[1..][i - 1 := e];
      FreeCountUpdate(s[1..], i - 1, e);
    }
  }

  /** A pool of `n` fresh elements. */
  function FreshElements(n: nat): (s: seq<Element>)
    ensures |s| == n && FreeCount(s) == n
    ensures forall j :: 0 <= j < n ==> s[j] == FRESH_ELEMENT
  {
    if n == 0 then [] else
      var t := FreshElements(n - 1);
      assert ([FRESH_ELEMENT] + t)[1..] == t;
      [FRESH_ELEMENT] + t
  }

  /** One `esp_video_buffer`: `info.count` elements of `info.size` bytes. */
  class VideoBuffer {
    const count: nat
    const size: U32
    const elements: array<Element>

    predicate Valid()
    {
      elements.Length == count
    }

    /** `esp_video_buffer_create` on success: every element free. */
    constructor(count: nat, size: U32)
      ensures Valid() && this.count == count && this.size == size
      ensures elements[..] == FreshElements(count)
      ensures fresh(elements)
    {
      this.count := count;
      this.size := size;
      elements := new Element[count](_ => FRESH_ELEMENT);
      new;
      assert elements[..] == FreshElements(count);
    }

    /** The claim loop of `encode_internal_`: scan from index 0, mark the
        first free element `st` and stop; -1 when none is free. */
    method Claim(st: ElementState) returns (idx: int)
      requires Valid()
      modifies elements
      ensures idx == FirstFree(old(elements[..]))
      ensures idx < 0 ==> elements[..] == old(elements[..])
      ensures idx >= 0 ==> elements[..] == old(elements[..])[idx := old(elements[idx]).(state := st)]
    {
      idx := -1;
      var i := 0;
      while idx < 0 && i < elements.Length
        invariant 0 <= i <= elements.Length
        invariant forall j :: 0 <= j < i && idx < 0 ==> elements[j].state != Free
        invariant idx < 0 ==> elements[..] == old(elements[..])
        invariant idx >= 0 ==> idx < i && idx == FirstFree(old(elements[..]))
        invariant idx >= 0 ==> elements[..] == old(elements[..])[idx := old(elements[idx]).(state := st)]
        decreases elements.Length - i, if idx < 0 then 1 else 0
      {
        if elements[i].state == Free {
          elements[i] := elements[i].(state := st);
          idx := i;
        }
        i := i + 1;
      }
    }

    /** Records the number of valid bytes in element `i`. */
    method SetValidSize(i: nat, n: nat)
      requires Valid() && i < count
      modifies elements
      ensures elements[..] == old(elements[..])[i := old(elements[i]).(validSize := n)]
    {
      elements[i] := elements[i].(validSize := n);
    }

    /** `ELEMENT_SET_<st>` on element `i`; its valid size is kept. */
    method SetState(i: nat, st: ElementState)
      requires Valid() && i < count
      modifies elements
      ensures elements[..] == old(elements[..])[i := old(elements[i]).(state := st)]
    {
      elements[i] := elements[i].(state := st);
    }
  }
}

/** `Array.prototype.findIndex` and `splice(i, 1)`, the two list
    primitives every store operation is built from. */
module Lists {
  import opened JsValues

  /** The position of the first element satisfying `p`, if any. */
  function FirstMatch<T>(s: seq<T>, p: T -> bool): (r: Option<nat>)
    ensures r.Some? ==> r.value < |s| && p(s[r.value])
    ensures r.Some? ==> forall j :: 0 <= j < r.value ==> !p(s[j])
    ensures r.None? ==> forall j :: 0 <= j < |s| ==> !p(s[j])
  {
    if s == [] then None
    else if p(s[0]) then Some(0)
    else match FirstMatch(s[1..], p)
      case None => None
      case Some(k) => Some(k + 1)
  }

  /** `s.findIndex(p)`: a left-to-right scan that stops at the first hit
      and answers -1 when nothing matches. */
  method FindIndex<T>(s: seq<T>, p: T -> bool) returns (index: int)
    ensures -1 <= index < |s|
    ensures index >= 0 ==> p(s[index]) && forall j :: 0 <= j < index ==> !p(s[j])
    ensures index == -1 <==> forall j :: 0 <= j < |s| ==> !p(s[j])
    ensures index == -1 <==> FirstMatch(s, p).None?
    ensures index >= 0 ==> FirstMatch(s, p) == Some(index)
  {
    var i := 0;
    while i < |s|
      invariant 0 <= i <= |s|
      invariant forall j :: 0 <= j < i ==> !p(s[j])
    {
      if p(s[i]) {
        FirstMatchIsFirst(s, p, i);
        return i;
      }
      i := i + 1;
    }
    return -1;
  }

  /** A hit with no earlier hit is the first match. */
  lemma FirstMatchIsFirst<T>(s: seq<T>, p: T -> bool, i: nat)
    requires i < |s| && p(s[i])
    requires forall j :: 0 <= j < i ==> !p(s[j])
    ensures FirstMatch(s, p) == Some(i)
  {
    var r := FirstMatch(s, p);
    assert r.Some?;
    assert !(r.value < i) && !(i < r.value);
  }

  /** Appending an element leaves an existing first match where it was,
      and otherwise makes the new element the first match if it matches. */
  lemma {:induction false} FirstMatchAppend<T>(s: seq<T>, x: T, p: T -> bool)
    ensures FirstMatch(s + [x], p) ==
      if FirstMatch(s, p).Some? then FirstMatch(s, p)
      else if p(x) then Some(|s|) else None
  {
    var r := FirstMatch(s, p);
    if r.Some? {
      FirstMatchIsFirst(s + [x], p, r.value);
    } else if p(x) {
      FirstMatchIsFirst(s + [x], p, |s|);
    } else {
      assert forall j :: 0 <= j < |s| + 1 ==> !p((s + [x])[j]) by {
        forall j | 0 <= j < |s| + 1 ensures !p((s + [x])[j]) {
          if j < |s| { assert (s + [x])[j] == s[j]; }
        }
      }
    }
  }

  /** `s.splice(i, 1)`: drops position `i`, keeps the order of the rest. */
  function RemoveAt<T>(s: seq<T>, i: nat): (r: seq<T>)
    requires i < |s|
    ensures |r| == |s| - 1
    ensures forall j :: 0 <= j < i ==> r[j] == s[j]
    ensures forall j :: i <= j < |r| ==> r[j] == s[j + 1]
    ensures multiset(r) + multiset{s[i]} == multiset(s)
  {
    assert s == s[..i] + [s[i]] + s[i + 1..];
    s[..i] + s[i + 1..]
  }
}

/** Keys written with dots: cutting them, splitting them into segments, joining segments. */
module DottedKeys {

  /** The position of the first dot of `s`, or |s| when it has none. */
  function FirstDot(s: string): (i: nat)
    ensures i <= |s|
    ensures i < |s| ==> s[i] == '.'
    ensures forall j :: 0 <= j < i ==> s[j] != '.'
  {
    if s == [] || s[0] == '.' then 0 else 1 + FirstDot(s[1..])
  }

  predicate HasDot(s: string) {
    FirstDot(s) < |s|
  }

  /** The part of `s` before its first dot. */
  function Base(s: string): (b: string)
    ensures !HasDot(b)
    ensures |b| <= |s|
  {
    s[..FirstDot(s)]
  }

  /** The part of `s` after its first dot. */
  function Rest(s: string): (r: string)
    requires HasDot(s)
    ensures |r| < |s|
  {
    s[FirstDot(s) + 1..]
  }

  lemma CutRebuilds(s: string)
    requires HasDot(s)
    ensures s == Base(s) + "." + Rest(s)
  {
  }

  /** The number of dots in `s`. */
  function Dots(s: string): nat {
    if HasDot(s) then 1 + Dots(Rest(s)) else 0
  }

  /** The segments of `s` between its dots; there is always at least one. */
  function Segments(s: string): (segs: seq<string>)
    ensures |segs| == Dots(s) + 1
    ensures forall i :: 0 <= i < |segs| ==> !HasDot(segs[i])
  {
    if HasDot(s) then [Base(s)] + Segments(Rest(s)) else [s]
  }

  /** The key of a name below `root`. */
  function Under(root: string, name: string): string {
    if root == "" then name else root + "." + name
  }
}

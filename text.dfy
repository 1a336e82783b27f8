/** Strings, the case fold and substring search used by the provider.
    `Position` plays the part of PHP's `mb_stripos` on folded strings, and
    `Contains` is the "occurs somewhere" relation that relevance and the
    database filter are stated against. */
module Text {

  datatype Option<+T> = None | Some(value: T)

  /** ASCII lower-casing: the one case fold of the model. */
  function Lower(c: char): (d: char)
    ensures 'A' <= c <= 'Z' ==> d as int == c as int + 32
    ensures !('A' <= c <= 'Z') ==> d == c
  {
    if 'A' <= c <= 'Z' then (c as int + 32) as char else c
  }

  function LowerStr(s: string): (r: string)
    ensures |r| == |s|
    ensures forall i :: 0 <= i < |s| ==> r[i] == Lower(s[i])
  {
    seq(|s|, i requires 0 <= i < |s| => Lower(s[i]))
  }

  /** `needle` occurs in `hay` starting at index `i`. */
  predicate OccursAt(hay: string, needle: string, i: nat) {
    i + |needle| <= |hay| && hay[i..i + |needle|] == needle
  }

  /** `needle` is a substring of `hay`. */
  predicate Contains(hay: string, needle: string) {
    exists i: nat :: i <= |hay| && OccursAt(hay, needle, i)
  }

  /** Case-insensitive containment: both sides under the same fold. */
  predicate ContainsFolded(hay: string, needle: string) {
    Contains(LowerStr(hay), LowerStr(needle))
  }

  /** The first index at or after `k` where `needle` occurs in `hay`. */
  function PositionFrom(hay: string, needle: string, k: nat): (r: Option<nat>)
    requires k <= |hay|
    ensures r.Some? ==> k <= r.value && OccursAt(hay, needle, r.value)
    ensures r.Some? ==> forall j: nat :: k <= j < r.value ==> !OccursAt(hay, needle, j)
    ensures r.None? ==> forall j: nat :: k <= j <= |hay| ==> !OccursAt(hay, needle, j)
    decreases |hay| - k
  {
    if OccursAt(hay, needle, k) then Some(k)
    else if k == |hay| then None
    else PositionFrom(hay, needle, k + 1)
  }

  /** The first occurrence of `needle` in `hay`, or None when there is none. */
  function Position(hay: string, needle: string): (r: Option<nat>)
    ensures r.None? <==> !Contains(hay, needle)
    ensures r.Some? ==> OccursAt(hay, needle, r.value)
    ensures r.Some? ==> forall j: nat :: j < r.value ==> !OccursAt(hay, needle, j)
  {
    var r := PositionFrom(hay, needle, 0);
    if r.Some? then assert OccursAt(hay, needle, r.value); r else r
  }

  /** `mb_stripos`: the first case-insensitive occurrence. An empty needle is
      found at index 0, as PHP 8 does. */
  function PositionFolded(hay: string, needle: string): (r: Option<nat>)
    ensures r.None? <==> !ContainsFolded(hay, needle)
    ensures r.Some? ==> r.value + |needle| <= |hay|
    ensures needle == [] ==> r == Some(0)
  {
    var r := Position(LowerStr(hay), LowerStr(needle));
    if needle == [] then assert OccursAt(LowerStr(hay), LowerStr(needle), 0); r else r
  }

  /** Folding commutes with taking a slice. */
  lemma LowerStrSlice(s: string, i: nat, j: nat)
    requires i <= j <= |s|
    ensures LowerStr(s[i..j]) == LowerStr(s)[i..j]
  {
  }

  /** A verbatim occurrence is also a case-insensitive one. */
  lemma ContainsThenFolded(hay: string, needle: string)
    requires Contains(hay, needle)
    ensures ContainsFolded(hay, needle)
  {
    var i: nat :| i <= |hay| && OccursAt(hay, needle, i);
    LowerStrSlice(hay, i, i + |needle|);
    assert OccursAt(LowerStr(hay), LowerStr(needle), i);
  }

  /** The empty string occurs in every string, folded or not. */
  lemma EmptyOccursEverywhere(hay: string)
    ensures ContainsFolded(hay, [])
  {
    assert OccursAt(LowerStr(hay), LowerStr([]), 0);
  }
}

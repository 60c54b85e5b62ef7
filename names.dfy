/** Classification of mesh names by the floor-material pass of the studio viewer.
    A mesh is "floor-like" when its lower-cased name contains one of the floor
    keywords and does not contain "mirror". */
module FloorNames {

  /** An upper-case ASCII letter. */
  predicate IsUpper(c: char) {
    'A' <= c <= 'Z'
  }

  /** `toLowerCase` on one character, for the ASCII range. */
  function LowerChar(c: char): (r: char)
    ensures !IsUpper(r)
    ensures IsUpper(c) ==> r as int == c as int + ('a' as int - 'A' as int)
    ensures !IsUpper(c) ==> r == c
  {
    if IsUpper(c) then (c as int - 'A' as int + 'a' as int) as char else c
  }

  /** `String.prototype.toLowerCase`, character by character: every upper-case
      letter becomes its own lower-case letter, and every other character is
      kept as it is. */
  function Lower(s: string): (r: string)
    ensures |r| == |s|
    ensures forall i :: 0 <= i < |r| ==> !IsUpper(r[i])
    ensures forall i :: 0 <= i < |s| && !IsUpper(s[i]) ==> r[i] == s[i]
    ensures forall i :: 0 <= i < |s| && IsUpper(s[i]) ==> r[i] as int == s[i] as int + ('a' as int - 'A' as int)
  {
    seq(|s|, i requires 0 <= i < |s| => LowerChar(s[i]))
  }

  /** The word `w` starts at position `i` of `s`. */
  predicate OccursAt(s: string, w: string, i: nat) {
    i + |w| <= |s| && s[i..i + |w|] == w
  }

  /** An occurrence at position `i + 1` of `s` is an occurrence at `i` of `s[1..]`. */
  lemma OccursAtTail(s: string, w: string, i: nat)
    requires |s| > 0
    ensures OccursAt(s, w, i + 1) <==> OccursAt(s[1..], w, i)
  {
    if i + 1 + |w| <= |s| {
      assert s[i + 1..i + 1 + |w|] == s[1..][i..i + |w|];
    }
  }

  /** `s.includes(w)`: `w` occurs somewhere in `s`. */
  function Contains(s: string, w: string): (b: bool)
    ensures b <==> exists i: nat :: OccursAt(s, w, i)
    decreases |s|
  {
    if |w| > |s| then false
    else if s[..|w|] == w then assert OccursAt(s, w, 0); true
    else
      assert forall i: nat :: OccursAt(s, w, i + 1) <==> OccursAt(s[1..], w, i) by {
        forall i: nat ensures OccursAt(s, w, i + 1) <==> OccursAt(s[1..], w, i) {
          OccursAtTail(s, w, i);
        }
      }
      assert !OccursAt(s, w, 0);
      assert forall i: nat :: OccursAt(s, w, i) ==> i == 0 || OccursAt(s[1..], w, i - 1) by {
        forall i: nat | OccursAt(s, w, i) && i > 0 ensures OccursAt(s[1..], w, i - 1) {
          OccursAtTail(s, w, i - 1);
        }
      }
      Contains(s[1..], w)
  }

  /** A word whose first letter does not appear in `s` does not occur in `s`. */
  lemma MissingFirstLetter(s: string, w: string)
    requires |w| > 0 && w[0] !in s
    ensures !Contains(s, w)
  {
  }

  /** Some word of `words` occurs in `s`: what a regular expression made of
      the alternatives `words` finds when `match` returns non-null. */
  function ContainsAny(s: string, words: seq<string>): (b: bool)
    ensures b <==> exists j :: 0 <= j < |words| && Contains(s, words[j])
  {
    if words == [] then false else Contains(s, words[0]) || ContainsAny(s, words[1..])
  }

  /** The alternatives of the pattern `/floor|plane|zemin|parke|ground/`. */
  const FloorKeywords: seq<string> := ["floor", "plane", "zemin", "parke", "ground"]

  /** The word that excludes a mesh from the pass. */
  const MirrorWord: string := "mirror"

  /** The pass's test on an already lower-cased name: some floor keyword starts
      at some position of the name, and "mirror" starts at none. */
  predicate IsFloorLike(name: string): (b: bool)
    ensures b <==>
      (exists j: nat, i: nat :: j < |FloorKeywords| && OccursAt(name, FloorKeywords[j], i)) &&
      !(exists i: nat :: OccursAt(name, MirrorWord, i))
  {
    ContainsAny(name, FloorKeywords) && !Contains(name, MirrorWord)
  }

  /** Lower-casing commutes with taking a slice. */
  lemma LowerSlice(s: string, i: nat, j: nat)
    requires i <= j <= |s|
    ensures Lower(s)[i..j] == Lower(s[i..j])
  {
  }

  /** Somewhere in `s` there is a run of characters that lower-cases to `w`:
      `w` occurs in `s` in some mixture of upper and lower case. */
  ghost predicate HasCaseVariant(s: string, w: string) {
    exists i: nat :: CaseVariantAt(s, w, i)
  }

  /** The run of `|w|` characters of `s` at position `i` lower-cases to `w`. */
  ghost predicate CaseVariantAt(s: string, w: string, i: nat) {
    i + |w| <= |s| && Lower(s[i..i + |w|]) == w
  }

  /** A case variant of `w` at position `i` is an occurrence of `w` at `i` in the lower-cased text. */
  lemma CaseVariantAtIff(s: string, w: string, i: nat)
    ensures CaseVariantAt(s, w, i) <==> OccursAt(Lower(s), w, i)
  {
    if i + |w| <= |s| {
      LowerSlice(s, i, i + |w|);
    }
  }

  /** Searching the lower-cased name for a lower-case word is a case-insensitive search. */
  lemma ContainsLowerIff(s: string, w: string)
    ensures Contains(Lower(s), w) <==> HasCaseVariant(s, w)
  {
    forall i: nat ensures CaseVariantAt(s, w, i) <==> OccursAt(Lower(s), w, i) {
      CaseVariantAtIff(s, w, i);
    }
  }

  /** The classification of the pass, stated on the original (mixed-case) name:
      a case variant of some floor keyword occurs and no case variant of "mirror" does. */
  lemma FloorLikeIff(name: string)
    ensures IsFloorLike(Lower(name)) <==>
      (exists j :: 0 <= j < |FloorKeywords| && HasCaseVariant(name, FloorKeywords[j]))
      && !HasCaseVariant(name, MirrorWord)
  {
    ContainsLowerIff(name, MirrorWord);
    forall j | 0 <= j < |FloorKeywords| {
      ContainsLowerIff(name, FloorKeywords[j]);
    }
  }

  /** A name with "mirror" in it, in any case, is never floor-like, whatever else it contains. */
  lemma MirrorNeverFloorLike(name: string)
    requires HasCaseVariant(name, MirrorWord)
    ensures !IsFloorLike(Lower(name))
  {
    ContainsLowerIff(name, MirrorWord);
  }

  /** A name that contains a floor keyword in any case and no "mirror" in any case is floor-like. */
  lemma KeywordMakesFloorLike(name: string, j: nat)
    requires j < |FloorKeywords| && HasCaseVariant(name, FloorKeywords[j])
    requires !HasCaseVariant(name, MirrorWord)
    ensures IsFloorLike(Lower(name))
  {
    ContainsLowerIff(name, FloorKeywords[j]);
    ContainsLowerIff(name, MirrorWord);
  }
}

/** Slug derivation, `s.replace(/ /g, '-').toLowerCase()`, used for tag slugs
    and for post slugs: every space becomes a hyphen, then the result is
    lowercased. Characters are treated as ASCII. */
module Slugs {

  predicate IsUpper(c: char) {
    'A' <= c <= 'Z'
  }

  /** `toLowerCase` of one character, over ASCII. */
  function LowerChar(c: char): (r: char)
    ensures !IsUpper(r)
    ensures IsUpper(c) ==> r as int == c as int + 32
    ensures !IsUpper(c) ==> r == c
  {
    if IsUpper(c) then (c as int + 32) as char else c
  }

  /** `s.replace(/ /g, '-')`: every space, not only the first, becomes a hyphen. */
  function ReplaceSpaces(s: string): (r: string)
    ensures |r| == |s|
    ensures ' ' !in r
    decreases |s|
  {
    if s == [] then []
    else [if s[0] == ' ' then '-' else s[0]] + ReplaceSpaces(s[1..])
  }

  /** `s.toLowerCase()`, over ASCII. */
  function LowerCase(s: string): (r: string)
    ensures |r| == |s|
    ensures forall i :: 0 <= i < |r| ==> !IsUpper(r[i])
    decreases |s|
  {
    if s == [] then []
    else [LowerChar(s[0])] + LowerCase(s[1..])
  }

  /** The slug of a tag name or a post title. */
  function Slugify(s: string): (r: string)
    ensures |r| == |s|
    ensures ' ' !in r
    ensures forall i :: 0 <= i < |r| ==> !IsUpper(r[i])
  {
    LowerCasePreservesNoSpace(ReplaceSpaces(s));
    LowerCase(ReplaceSpaces(s))
  }

  /** Lowercasing never produces a space. */
  lemma {:induction false} LowerCasePreservesNoSpace(s: string)
    requires ' ' !in s
    ensures ' ' !in LowerCase(s)
    decreases |s|
  {
    if s != [] {
      assert s[0] in s;
      assert s[1..] <= s[1..] && forall c :: c in s[1..] ==> c in s;
      LowerCasePreservesNoSpace(s[1..]);
    }
  }

  /** The slug one character at a time: a space gives a hyphen, anything else its lowercase. */
  lemma {:induction false} SlugifyChars(s: string)
    ensures forall i :: 0 <= i < |s| ==>
              Slugify(s)[i] == (if s[i] == ' ' then '-' else LowerChar(s[i]))
    decreases |s|
  {
    if s != [] {
      SlugifyChars(s[1..]);
      assert ReplaceSpaces(s) == [if s[0] == ' ' then '-' else s[0]] + ReplaceSpaces(s[1..]);
      assert Slugify(s) == [Slugify(s)[0]] + Slugify(s[1..]);
      forall i | 0 < i < |s|
        ensures Slugify(s)[i] == (if s[i] == ' ' then '-' else LowerChar(s[i]))
      {
        assert Slugify(s)[i] == Slugify(s[1..])[i - 1];
        assert s[i] == s[1..][i - 1];
      }
    }
  }

  /** A slug is its own slug. */
  lemma SlugifyIdempotent(s: string)
    ensures Slugify(Slugify(s)) == Slugify(s)
  {
    var t := Slugify(s);
    SlugifyChars(t);
    forall i | 0 <= i < |t|
      ensures Slugify(t)[i] == t[i]
    {
      assert t[i] != ' ';
    }
  }

  /** "Node JS" and "node-js" share the slug "node-js". */
  lemma SlugExample()
    ensures Slugify("Node JS") == Slugify("node-js") == "node-js"
  {
    var s := "Node JS";
    SlugifyChars(s);
    assert LowerChar(s[0]) == 'n' && LowerChar(s[5]) == 'j' && LowerChar(s[6]) == 's';
    assert Slugify(s) == "node-js";
    SlugifyIdempotent(s);
  }
}

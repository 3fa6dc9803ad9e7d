/** The tag list of a new post: `tags.split(',')` with every piece trimmed, or
    `['uncategorised']` when the request gives no tags. */
module TagParsing {
  import opened Wrappers

  /** The characters `String.prototype.trim` removes: ECMAScript white space and line terminators. */
  predicate IsWhiteSpace(c: char) {
    ('\U{9}' <= c <= '\U{D}') || c == ' ' || c == '\U{A0}' || c == '\U{1680}' ||
    ('\U{2000}' <= c <= '\U{200A}') || c == '\U{2028}' || c == '\U{2029}' ||
    c == '\U{202F}' || c == '\U{205F}' || c == '\U{3000}' || c == '\U{FEFF}'
  }

  /** How often `sep` occurs in `s`. */
  function Count(s: string, sep: char): nat
    decreases |s|
  {
    if s == [] then 0 else (if s[0] == sep then 1 else 0) + Count(s[1..], sep)
  }

  /** `s.split(sep)` for a one-character separator: the pieces between separators,
      empty ones included; a string without the separator is one piece. */
  function Split(s: string, sep: char): (r: seq<string>)
    ensures |r| == Count(s, sep) + 1
    ensures forall i :: 0 <= i < |r| ==> sep !in r[i]
    decreases |s|
  {
    if s == [] then [""]
    else
      var rest := Split(s[1..], sep);
      if s[0] == sep then [""] + rest
      else [[s[0]] + rest[0]] + rest[1..]
  }

  /** The pieces put back together with `sep` between them (`parts.join(sep)`). */
  function Join(parts: seq<string>, sep: char): string
    decreases |parts|
  {
    if parts == [] then ""
    else if |parts| == 1 then parts[0]
    else parts[0] + [sep] + Join(parts[1..], sep)
  }

  /** Splitting loses nothing: joining the pieces gives the string back. */
  lemma {:induction false} JoinSplit(s: string, sep: char)
    ensures Join(Split(s, sep), sep) == s
    decreases |s|
  {
    if s != [] {
      var rest := Split(s[1..], sep);
      JoinSplit(s[1..], sep);
      if s[0] != sep {
        if |rest| > 1 {
          assert Join(rest, sep) == rest[0] + [sep] + Join(rest[1..], sep);
          assert ([[s[0]] + rest[0]] + rest[1..])[1..] == rest[1..];
        }
      }
    }
  }

  /** Pieces without the separator are recovered by splitting their join. */
  lemma {:induction false} SplitJoin(parts: seq<string>, sep: char)
    requires |parts| > 0
    requires forall i :: 0 <= i < |parts| ==> sep !in parts[i]
    ensures Split(Join(parts, sep), sep) == parts
    decreases |parts|
  {
    if |parts| == 1 {
      SplitNoSeparator(parts[0], sep);
    } else {
      SplitJoin(parts[1..], sep);
      SplitAppend(parts[0], Join(parts[1..], sep), sep);
      assert parts == [parts[0]] + parts[1..];
    }
  }

  /** A string without the separator is a single piece. */
  lemma {:induction false} SplitNoSeparator(s: string, sep: char)
    requires sep !in s
    ensures Split(s, sep) == [s]
    decreases |s|
  {
    if s != [] {
      assert s[0] in s;
      assert forall c :: c in s[1..] ==> c in s;
      SplitNoSeparator(s[1..], sep);
      assert [s[0]] + s[1..] == s;
    }
  }

  /** A separator-free head followed by a separator starts a new piece. */
  lemma {:induction false} SplitAppend(head: string, tail: string, sep: char)
    requires sep !in head
    ensures Split(head + [sep] + tail, sep) == [head] + Split(tail, sep)
    decreases |head|
  {
    var s := head + [sep] + tail;
    if head == [] {
      assert s[1..] == tail;
    } else {
      assert head[0] in head;
      assert forall c :: c in head[1..] ==> c in head;
      SplitAppend(head[1..], tail, sep);
      assert s[1..] == head[1..] + [sep] + tail;
      assert [head[0]] + head[1..] == head;
    }
  }

  /** The index of the first character `trim` keeps, or `|s|`. */
  function StartOfText(s: string): (i: nat)
    ensures i <= |s|
    ensures forall k :: 0 <= k < i ==> IsWhiteSpace(s[k])
    ensures i < |s| ==> !IsWhiteSpace(s[i])
    decreases |s|
  {
    if s == [] || !IsWhiteSpace(s[0]) then 0 else 1 + StartOfText(s[1..])
  }

  /** One past the index of the last character `trim` keeps, or 0. */
  function EndOfText(s: string): (j: nat)
    ensures j <= |s|
    ensures forall k :: j <= k < |s| ==> IsWhiteSpace(s[k])
    ensures j > 0 ==> !IsWhiteSpace(s[j - 1])
    decreases |s|
  {
    if s == [] || !IsWhiteSpace(s[|s| - 1]) then |s| else EndOfText(s[..|s| - 1])
  }

  /** Neither starts nor ends with white space. */
  predicate Trimmed(s: string) {
    s == [] || (!IsWhiteSpace(s[0]) && !IsWhiteSpace(s[|s| - 1]))
  }

  /** `s.trim()`: the longest slice of `s` that starts and ends with a character other than white space. */
  function Trim(s: string): (r: string)
    ensures Trimmed(r)
    ensures exists i, j :: 0 <= i <= j <= |s| && r == s[i..j] &&
              (forall k :: 0 <= k < i ==> IsWhiteSpace(s[k])) &&
              (forall k :: j <= k < |s| ==> IsWhiteSpace(s[k]))
  {
    var i := StartOfText(s);
    var t := s[i..];
    var j := EndOfText(t);
    assert t[..j] == s[i..i + j];
    assert forall k :: i + j <= k < |s| ==> s[k] == t[k - i];
    t[..j]
  }

  /** Trimming a trimmed string changes nothing. */
  lemma TrimTrimmed(s: string)
    requires Trimmed(s)
    ensures Trim(s) == s
  {
    assert StartOfText(s) == 0;
    assert s[0..] == s;
  }

  /** Trimming twice is trimming once. */
  lemma TrimIdempotent(s: string)
    ensures Trim(Trim(s)) == Trim(s)
  {
    TrimTrimmed(Trim(s));
  }

  /** The tag list of `POST /posts`: `tags` absent or empty (both falsy) gives
      the one tag `uncategorised`; otherwise one tag per comma-separated piece,
      trimmed, empty pieces kept. */
  function ParseTags(tags: Option<string>): (r: seq<string>)
    ensures tags.None? || tags.value == "" ==> r == ["uncategorised"]
    ensures tags.Some? && tags.value != "" ==>
              && |r| == Count(tags.value, ',') + 1
              && forall i :: 0 <= i < |r| ==> r[i] == Trim(Split(tags.value, ',')[i])
  {
    if tags.Some? && tags.value != "" then
      var pieces := Split(tags.value, ',');
      seq(|pieces|, i requires 0 <= i < |pieces| => Trim(pieces[i]))
    else ["uncategorised"]
  }

  /** Every parsed tag is trimmed and holds no comma, and their number is one more than the commas. */
  lemma ParsedTagsClean(tags: string)
    requires tags != ""
    ensures |ParseTags(Some(tags))| == Count(tags, ',') + 1
    ensures forall i :: 0 <= i < |ParseTags(Some(tags))| ==>
              Trimmed(ParseTags(Some(tags))[i]) && ',' !in ParseTags(Some(tags))[i]
  {
  }

  /** Tags that are already trimmed and comma-free come back exactly as joined. */
  lemma ParseJoinedTags(names: seq<string>)
    requires |names| > 0 && Join(names, ',') != ""
    requires forall i :: 0 <= i < |names| ==> ',' !in names[i] && Trimmed(names[i])
    ensures ParseTags(Some(Join(names, ','))) == names
  {
    SplitJoin(names, ',');
    forall i | 0 <= i < |names|
      ensures ParseTags(Some(Join(names, ',')))[i] == names[i]
    {
      TrimTrimmed(names[i]);
    }
  }

  /** No tags, or an empty string, give `uncategorised`; "a,,b" keeps the empty middle piece. */
  lemma ParseExamples()
    ensures ParseTags(None) == ParseTags(Some("")) == ["uncategorised"]
    ensures ParseTags(Some("a,,b")) == ["a", "", "b"]
  {
    ParseJoinedTags(["a", "", "b"]);
    assert Join(["a", "", "b"], ',') == "a,,b";
  }

  /** The spaces around a tag are trimmed, the one inside it is kept. */
  lemma TrimExample()
    ensures Trim(" node js ") == "node js"
  {
    var t := " node js ";
    assert StartOfText(t[1..]) == 0;
    assert StartOfText(t) == 1;
    assert t[1..][..7] == "node js";
    assert EndOfText(t[1..]) == 7;
  }
}

/** The Python string operations the models use, on ASCII text. */
module Text {
  import opened Seqs

  /** `str.isspace` on ASCII. */
  predicate IsSpace(c: char) {
    c == ' ' || '\t' <= c <= '\r' || 28 as char <= c <= 31 as char
  }

  /** The ASCII whitespace, listed. */
  lemma SpacesAre(c: char)
    ensures IsSpace(c) <==> c in "\t\n\U{0B}\U{0C}\r\U{1C}\U{1D}\U{1E}\U{1F} "
  {
  }

  function StripLeft(s: string): (r: string)
    ensures r == [] || !IsSpace(r[0])
    ensures |r| <= |s|
  {
    if s != [] && IsSpace(s[0]) then StripLeft(s[1..]) else s
  }

  function StripRight(s: string): (r: string)
    ensures r == [] || !IsSpace(r[|r| - 1])
    ensures |r| <= |s|
  {
    if s != [] && IsSpace(s[|s| - 1]) then StripRight(s[..|s| - 1]) else s
  }

  /** `str.strip()` */
  function Strip(s: string): string {
    StripRight(StripLeft(s))
  }

  predicate AllSpaces(s: string) {
    forall i :: 0 <= i < |s| ==> IsSpace(s[i])
  }

  lemma {:induction false} StripLeftParts(s: string) returns (head: string)
    ensures s == head + StripLeft(s) && AllSpaces(head)
  {
    head := "";
    if s != [] && IsSpace(s[0]) {
      var more := StripLeftParts(s[1..]);
      head := [s[0]] + more;
      assert s == [s[0]] + s[1..];
      ConcatAssoc([s[0]], more, StripLeft(s));
    }
  }

  lemma {:induction false} StripRightParts(s: string) returns (tail: string)
    ensures s == StripRight(s) + tail && AllSpaces(tail)
  {
    tail := "";
    if s != [] && IsSpace(s[|s| - 1]) {
      var more := StripRightParts(s[..|s| - 1]);
      tail := more + [s[|s| - 1]];
      assert s == s[..|s| - 1] + [s[|s| - 1]];
      ConcatAssoc(StripRight(s), more, [s[|s| - 1]]);
    }
  }

  lemma StripParts(s: string) returns (head: string, tail: string)
    ensures s == head + Strip(s) + tail && AllSpaces(head) && AllSpaces(tail)
  {
    head := StripLeftParts(s);
    tail := StripRightParts(StripLeft(s));
    ConcatAssoc(head, Strip(s), tail);
  }

  /** `str.lower()` on ASCII. */
  function LowerChar(c: char): char {
    if 'A' <= c <= 'Z' then (c as int + 32) as char else c
  }

  function Lower(s: string): (r: string)
    ensures |r| == |s| && forall i :: 0 <= i < |s| ==> r[i] == LowerChar(s[i])
  {
    seq(|s|, i requires 0 <= i < |s| => LowerChar(s[i]))
  }

  predicate OccursAt(text: string, part: string, i: int) {
    0 <= i && i + |part| <= |text| && text[i..i + |part|] == part
  }

  /** `part in text` */
  predicate Contains(text: string, part: string) {
    exists i :: 0 <= i <= |text| && OccursAt(text, part, i)
  }

  predicate ContainsAny(text: string, parts: seq<string>) {
    exists p <- parts :: Contains(text, p)
  }

  predicate StartsWith(s: string, prefix: string) {
    prefix <= s
  }

  /** Where `part` first occurs from `i` on; -1 when it does not. */
  function FindFrom(text: string, part: string, i: nat): (r: int)
    requires i <= |text|
    ensures r == -1 || (i <= r && OccursAt(text, part, r))
    decreases |text| - i
  {
    if OccursAt(text, part, i) then i
    else if i == |text| then -1
    else FindFrom(text, part, i + 1)
  }

  /** The first whitespace-delimited word of a stripped text. */
  function FirstWord(s: string): string {
    if s == [] || IsSpace(s[0]) then [] else [s[0]] + FirstWord(s[1..])
  }

  /** `s.split()` */
  function Words(s: string): seq<string>
    decreases |s|
  {
    if s == [] then []
    else if IsSpace(s[0]) then Words(s[1..])
    else if |s| == 1 || IsSpace(s[1]) then [[s[0]]] + Words(s[1..])
    else
      var rest := Words(s[1..]);
      if rest == [] then [] else [[s[0]] + rest[0]] + rest[1..]
  }

  /** `s.lstrip(chars)` */
  function StripLeftOf(s: string, chars: string): string {
    if s != [] && s[0] in chars then StripLeftOf(s[1..], chars) else s
  }

  /** `s.rstrip(chars)` */
  function StripRightOf(s: string, chars: string): string {
    if s != [] && s[|s| - 1] in chars then StripRightOf(s[..|s| - 1], chars) else s
  }

  /** `s.split(sep)` for a one-character separator. */
  function SplitOn(s: string, sep: char): (parts: seq<string>)
    ensures parts != []
  {
    if s == [] then [[]]
    else
      var rest := SplitOn(s[1..], sep);
      if s[0] == sep then [[]] + rest else [[s[0]] + rest[0]] + rest[1..]
  }

  lemma {:induction false} SplitNowhere(s: string, sep: char)
    requires sep !in s
    ensures SplitOn(s, sep) == [s]
  {
    if s != "" {
      SplitNowhere(s[1..], sep);
      assert s == [s[0]] + s[1..];
    }
  }

  /** `sep.join(parts)` */
  function Join(parts: seq<string>, sep: string): string {
    if parts == [] then [] else if |parts| == 1 then parts[0] else parts[0] + sep + Join(parts[1..], sep)
  }

  lemma {:induction false} SplitFirst(l: string, sep: char, rest: string)
    requires sep !in l
    ensures SplitOn(l + ([sep] + rest), sep) == [l] + SplitOn(rest, sep)
  {
    var s := l + ([sep] + rest);
    if l == "" {
      assert s == [sep] + rest;
      assert s[1..] == rest;
    } else {
      assert s[1..] == l[1..] + ([sep] + rest);
      SplitFirst(l[1..], sep, rest);
      assert ([l[1..]] + SplitOn(rest, sep))[1..] == SplitOn(rest, sep);
      assert l == [l[0]] + l[1..] && s[0] == l[0];
    }
  }

  /** Joined parts without the separator are split into the parts again. */
  lemma {:induction false} SplitJoined(parts: seq<string>, sep: char)
    requires parts != [] && forall i :: 0 <= i < |parts| ==> sep !in parts[i]
    ensures SplitOn(Join(parts, [sep]), sep) == parts
  {
    if |parts| == 1 {
      SplitNowhere(parts[0], sep);
    } else {
      ConcatAssoc(parts[0], [sep], Join(parts[1..], [sep]));
      SplitJoined(parts[1..], sep);
      SplitFirst(parts[0], sep, Join(parts[1..], [sep]));
    }
  }

  predicate IsSolid(s: string) {
    forall i :: 0 <= i < |s| ==> !IsSpace(s[i])
  }

  lemma {:induction false} WordsAreSolid(s: string)
    ensures forall i :: 0 <= i < |Words(s)| ==> IsSolid(Words(s)[i])
  {
    if s != [] { WordsAreSolid(s[1..]); }
  }

  /** A longer text contains what its prefix contains. */
  lemma ContainsPrefix(text: string, longer: string, part: string)
    requires text <= longer && Contains(text, part)
    ensures Contains(longer, part)
  {
    var i :| 0 <= i <= |text| && OccursAt(text, part, i);
    assert longer[..|text|][i..i + |part|] == longer[i..i + |part|];
    assert OccursAt(longer, part, i);
  }

  lemma {:induction false} JoinPrefix(a: seq<string>, b: seq<string>, sep: string)
    requires a <= b
    ensures Join(a, sep) <= Join(b, sep)
  {
    if |a| == 1 && |b| > 1 {
      assert b[0] == a[0];
    } else if |a| > 1 {
      JoinPrefix(a[1..], b[1..], sep);
      assert a[0] == b[0];
    }
  }

  lemma LowerPrefix(a: string, b: string)
    requires a <= b
    ensures Lower(a) <= Lower(b)
  {
  }
}

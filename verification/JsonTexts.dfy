/**
 What the JSON repair does to commas, and what is cut out of text that does not begin with a closed
 object (packages/shared_utils/json_utils.py:12-21 and 100-126).
 */
module JsonTexts {
  import opened JsonRepair
  import opened Options
  import opened Seqs
  import opened Text

  // ---- Commas ----

  lemma {:induction false} NoCommaBefore(a: string, rest: string)
    requires ',' !in a
    ensures RemoveTrailingCommas(a + rest) == a + RemoveTrailingCommas(rest)
  {
    if a == "" {
      assert a + rest == rest;
    } else {
      assert (a + rest)[1..] == a[1..] + rest;
      NoCommaBefore(a[1..], rest);
      assert a == [a[0]] + a[1..];
      ConcatAssoc([a[0]], a[1..], RemoveTrailingCommas(rest));
    }
  }

  lemma {:induction false} RunOf(spaces: string, rest: string)
    requires AllSpaces(spaces) && rest != "" && !IsSpace(rest[0])
    ensures SpaceRun(spaces + rest) == |spaces|
  {
    if spaces == "" {
      assert spaces + rest == rest;
    } else {
      assert (spaces + rest)[1..] == spaces[1..] + rest;
      RunOf(spaces[1..], rest);
    }
  }

  lemma SpacesHaveNoComma(spaces: string)
    requires AllSpaces(spaces)
    ensures ',' !in spaces
  {
  }

  /** A comma with nothing but spaces between it and a closer goes, with the spaces. */
  lemma TrailingCommaGoes(spaces: string, closer: char, rest: string)
    requires AllSpaces(spaces) && IsCloser(closer)
    ensures RemoveTrailingCommas("," + (spaces + ([closer] + rest))) == [closer] + RemoveTrailingCommas(rest)
  {
    var s := "," + (spaces + ([closer] + rest));
    RunOf(spaces, [closer] + rest);
    assert s[1..] == spaces + ([closer] + rest);
    assert s[|spaces| + 1] == closer && s[|spaces| + 2..] == rest;
  }

  /** Any other comma stays, with what follows it. */
  lemma OtherCommaStays(spaces: string, rest: string)
    requires AllSpaces(spaces) && rest != "" && !IsSpace(rest[0]) && !IsCloser(rest[0])
    ensures RemoveTrailingCommas("," + (spaces + rest)) == "," + (spaces + RemoveTrailingCommas(rest))
  {
    var s := "," + (spaces + rest);
    RunOf(spaces, rest);
    assert s[1..] == spaces + rest && s[|spaces| + 1] == rest[0];
    SpacesHaveNoComma(spaces);
    NoCommaBefore(spaces, rest);
  }

  lemma {:induction false} RunOfAll(spaces: string)
    requires AllSpaces(spaces)
    ensures SpaceRun(spaces) == |spaces|
  {
    if spaces != "" { RunOfAll(spaces[1..]); }
  }

  lemma LastCommaStays(spaces: string)
    requires AllSpaces(spaces)
    ensures RemoveTrailingCommas("," + spaces) == "," + spaces
  {
    var s := "," + spaces;
    RunOfAll(spaces);
    assert s[1..] == spaces;
    SpacesHaveNoComma(spaces);
    NoCommaBefore(spaces, "");
    assert spaces + "" == spaces;
  }

  /** The repaired text is the input without its trailing commas, and then closers alone. */
  lemma RepairBegins(text: string)
    requires Strip(text) != ""
    ensures var kept, repaired := RemoveTrailingCommas(Strip(text)), Repair(text);
            kept <= repaired && forall i :: |kept| <= i < |repaired| ==> repaired[i] == ']' || repaired[i] == '}'
  {
  }

  lemma {:induction false} CommaFree(s: string)
    requires ',' !in s
    ensures RemoveTrailingCommas(s) == s
  {
    NoCommaBefore(s, "");
    assert s + "" == s;
  }

  /** Text without commas and without unclosed openers is given back. */
  lemma CompleteTextStays(text: string)
    requires Strip(text) == text && text != "" && ',' !in text
    requires Count(text, '{') <= Count(text, '}') && Count(text, '[') <= Count(text, ']')
    ensures Repair(text) == text
  {
    CommaFree(text);
    assert text + "" + "" == text;
  }

  // ---- What is cut out ----

  lemma {:induction false} FindAt(s: string, c: char, at: nat)
    requires at < |s| && s[at] == c && c !in s[..at]
    ensures Find(s, c) == at
  {
    if at > 0 {
      assert s[0] in s[..at] && s[1..][..at - 1] == s[1..at];
      forall i | 0 <= i < at - 1 ensures s[1..][i] != c { assert s[..at][i + 1] == s[1..][i]; }
      FindAt(s[1..], c, at - 1);
    }
  }

  lemma NotFound(s: string, c: char)
    requires c !in s
    ensures Find(s, c) == -1 && FindLast(s, c) == -1
  {
  }

  lemma LastAt(s: string, c: char, at: nat)
    requires at < |s| && s[at] == c && c !in s[at + 1..]
    ensures FindLast(s, c) == at
  {
    forall j | at < j < |s| ensures s[j] != c { assert s[j] == s[at + 1..][j - at - 1]; }
  }

  /** Without an opener there is nothing to parse. */
  lemma NothingWithoutOpener(text: string)
    ensures Candidate(text) == None <==> '{' !in text && '[' !in text
  {
    if '{' !in text { NotFound(text, '{'); }
    if '[' !in text { NotFound(text, '['); }
  }

  lemma OpensWithBracket(a: string, rest: string)
    requires NoBrackets(a)
    ensures var text := a + ("[" + rest);
            Find(text, '[') == |a| && (Find(text, '{') == -1 || Find(text, '{') > |a|)
  {
    var text := a + ("[" + rest);
    assert text[|a|] == '[' && forall i :: 0 <= i < |a| ==> text[i] == a[i] && !IsBracket(a[i]);
    assert text[..|a|] == a;
    FindAt(text, '[', |a|);
  }

  lemma ListSlice(text: string, start: nat, last: nat, word: string)
    requires start < last < |text| && Slice(text, start, last) == word && FindLast(text, ']') == last
    requires Find(text, '[') == start && (Find(text, '{') == -1 || Find(text, '{') > start)
    ensures Candidate(text) == Some(word)
  {
  }

  lemma ListRest(text: string, start: nat, word: string)
    requires start < |text| && Slice(text, start, -1) == word && FindLast(text, ']') == -1
    requires Find(text, '[') == start && (Find(text, '{') == -1 || Find(text, '{') > start)
    ensures Candidate(text) == Some(word)
  {
  }

  /** In `a + m + [c] + b` the last `c` is the one between. */
  lemma LastBetween(head: string, c: char, b: string, text: string)
    requires text == head + ([c] + b) && c !in b
    ensures FindLast(text, c) == |head|
  {
    assert text[|head|] == c && text[|head| + 1..] == b;
    LastAt(text, c, |head|);
  }

  /** If a list opens first, the text from there to the last `]` is taken. */
  lemma ListIsTaken(a: string, inner: string, b: string)
    requires NoBrackets(a) && ']' !in b
    ensures Candidate(a + ("[" + (inner + ("]" + b)))) == Some("[" + (inner + "]"))
  {
    var text := a + ("[" + (inner + ("]" + b)));
    OpensWithBracket(a, inner + ("]" + b));
    Regroup(a, '[', inner, ']', b, text);
    LastBetween(a + ("[" + inner), ']', b, text);
    SliceMiddle(a, "[" + (inner + "]"), b, text, |a| + 1 + |inner| + 1);
    ListSlice(text, |a|, |a| + 1 + |inner|, "[" + (inner + "]"));
  }

  lemma Regroup(a: string, open: char, inner: string, close: char, b: string, text: string)
    requires text == a + ([open] + (inner + ([close] + b)))
    ensures text == (a + ([open] + inner)) + ([close] + b)
    ensures text == a + (([open] + (inner + [close])) + b)
  {
  }

  /** With no `]` behind it, everything from there on. */
  lemma OpenListIsTaken(a: string, b: string)
    requires NoBrackets(a) && ']' !in b
    ensures Candidate(a + ("[" + b)) == Some("[" + b)
  {
    var text := a + ("[" + b);
    OpensWithBracket(a, b);
    assert ']' !in text;
    NotFound(text, ']');
    assert text[|a|..] == "[" + b;
    ListRest(text, |a|, "[" + b);
  }

  // ---- Objects cut short ----

  /** The braces open less those closed among the first `n` characters. */
  ghost function Net(s: string, n: nat): int
    requires n <= |s|
  {
    Count(s[..n], '{') - Count(s[..n], '}')
  }

  /** Behind an open brace: up to every point of the text it stays open. */
  ghost predicate StaysOpen(body: string) {
    forall n :: 0 <= n <= |body| ==> 1 + Net(body, n) > 0
  }

  lemma CountNext(s: string, n: nat, c: char)
    requires n < |s|
    ensures Count(s[..n + 1], c) == Count(s[..n], c) + if s[n] == c then 1 else 0
  {
    assert s[..n + 1][..n] == s[..n];
  }

  lemma {:induction false} ScanNeverEnds(text: string, i: nat, depth: int)
    requires i <= |text| && depth >= 1
    requires forall n :: i <= n <= |text| ==> depth + Net(text, n) - Net(text, i) > 0
    ensures BraceEnd(text, i, depth) == -1
    decreases |text| - i
  {
    if i < |text| {
      CountNext(text, i, '{');
      CountNext(text, i, '}');
      var d := depth + Net(text, i + 1) - Net(text, i);
      assert d > 0;
      ScanNeverEnds(text, i + 1, d);
    }
  }

  lemma NetBehind(head: string, body: string, n: nat)
    requires n <= |body|
    ensures Net(head + body, |head| + n) == Net(head + body, |head|) + Net(body, n)
  {
    var text := head + body;
    assert text[..|head| + n] == head + body[..n] && text[..|head|] == head;
    CountConcat(head, body[..n], '{');
    CountConcat(head, body[..n], '}');
  }

  lemma OpenNets(text: string, head: string, body: string)
    requires text == head + body && StaysOpen(body)
    ensures forall n :: |head| <= n <= |text| ==> 1 + Net(text, n) - Net(text, |head|) > 0
  {
    forall n | |head| <= n <= |text| ensures 1 + Net(text, n) - Net(text, |head|) > 0 {
      NetBehind(head, body, n - |head|);
      assert 1 + Net(body, n - |head|) > 0;
    }
  }

  lemma BraceStarts(text: string, at: nat)
    requires at < |text| && text[at] == '{'
    ensures BraceEnd(text, at, 0) == BraceEnd(text, at + 1, 1)
  {
  }

  lemma OpenScanFails(a: string, body: string, text: string)
    requires text == a + ("{" + body) && StaysOpen(body)
    ensures BraceEnd(text, |a|, 0) == -1
  {
    ConcatAssoc(a, "{", body);
    OpenNets(text, a + "{", body);
    BraceStarts(text, |a|);
    ScanNeverEnds(text, |a| + 1, 1);
  }

  lemma ObjectSlice(text: string, start: nat, last: nat, word: string)
    requires start < last < |text| && Slice(text, start, last) == word && FindLast(text, '}') == last && BraceEnd(text, start, 0) == -1
    requires Find(text, '{') == start && (Find(text, '[') == -1 || Find(text, '[') > start)
    ensures Candidate(text) == Some(word)
  {
  }

  lemma ObjectRest(text: string, start: nat, word: string)
    requires start < |text| && Slice(text, start, -1) == word && FindLast(text, '}') == -1 && BraceEnd(text, start, 0) == -1
    requires Find(text, '{') == start && (Find(text, '[') == -1 || Find(text, '[') > start)
    ensures Candidate(text) == Some(word)
  {
  }

  lemma OpensWithBrace(a: string, rest: string)
    requires NoBrackets(a)
    ensures var text := a + ("{" + rest);
            Find(text, '{') == |a| && (Find(text, '[') == -1 || Find(text, '[') > |a|)
  {
    var text := a + ("{" + rest);
    assert text[|a|] == '{' && forall i :: 0 <= i < |a| ==> text[i] == a[i] && !IsBracket(a[i]);
    assert text[..|a|] == a;
    FindAt(text, '{', |a|);
  }

  /** An object that is never closed is taken up to its last `}`. */
  lemma OpenObjectIsTaken(a: string, inner: string, b: string)
    requires NoBrackets(a) && '}' !in b && StaysOpen(inner + ("}" + b))
    ensures Candidate(a + ("{" + (inner + ("}" + b)))) == Some("{" + (inner + "}"))
  {
    var text := a + ("{" + (inner + ("}" + b)));
    OpensWithBrace(a, inner + ("}" + b));
    OpenScanFails(a, inner + ("}" + b), text);
    Regroup(a, '{', inner, '}', b, text);
    LastBetween(a + ("{" + inner), '}', b, text);
    SliceMiddle(a, "{" + (inner + "}"), b, text, |a| + 1 + |inner| + 1);
    ObjectSlice(text, |a|, |a| + 1 + |inner|, "{" + (inner + "}"));
  }

  /** With no `}` behind it, everything from there on. */
  lemma OpenBraceIsTaken(a: string, b: string)
    requires NoBrackets(a) && '}' !in b && StaysOpen(b)
    ensures Candidate(a + ("{" + b)) == Some("{" + b)
  {
    var text := a + ("{" + b);
    OpensWithBrace(a, b);
    OpenScanFails(a, b, text);
    assert '}' !in text;
    NotFound(text, '}');
    assert text[|a|..] == "{" + b;
    ObjectRest(text, |a|, "{" + b);
  }
}

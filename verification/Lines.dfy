/** Texts as lists of lines; '\n' is the only line break. */
module Lines {
  import opened Seqs
  import opened Text

  predicate IsLine(l: string) {
    '\n' !in l
  }

  /** The characters at which Python's `splitlines` breaks; the models are about texts with '\n' alone. */
  predicate IsBreak(c: char) {
    '\n' <= c <= '\r' || '\U{1c}' <= c <= '\U{1e}' || c == '\U{85}' || c == '\U{2028}' || c == '\U{2029}'
  }

  predicate IsPlainLine(l: string) {
    forall i :: 0 <= i < |l| ==> !IsBreak(l[i])
  }

  predicate AreLines(ls: seq<string>) {
    forall i :: 0 <= i < |ls| ==> IsLine(ls[i])
  }

  /** `s.split("\n")` */
  function Split(s: string): (ls: seq<string>)
    ensures ls != []
  {
    SplitOn(s, '\n')
  }

  /** `"\n".join(ls)` */
  function Unsplit(ls: seq<string>): string {
    Join(ls, "\n")
  }

  /** `s.splitlines()` */
  function SplitLines(s: string): seq<string> {
    var ls := Split(s);
    if ls[|ls| - 1] == "" then ls[..|ls| - 1] else ls
  }

  predicate EndsInBreak(s: string) {
    s != "" && s[|s| - 1] == '\n'
  }

  lemma {:induction false} SplitParts(s: string)
    ensures AreLines(Split(s)) && Unsplit(Split(s)) == s
  {
    if s != "" {
      var rest := Split(s[1..]);
      SplitParts(s[1..]);
      if s[0] == '\n' {
        assert ([[]] + rest)[1..] == rest;
      } else {
        assert ([[s[0]] + rest[0]] + rest[1..])[1..] == rest[1..];
        ConcatAssoc([s[0]], rest[0], "\n" + Unsplit(rest[1..]));
        ConcatAssoc(rest[0], "\n", Unsplit(rest[1..]));
        ConcatAssoc([s[0]] + rest[0], "\n", Unsplit(rest[1..]));
      }
    }
  }

  lemma SplitLine(l: string)
    requires IsLine(l)
    ensures Split(l) == [l]
  {
    SplitNowhere(l, '\n');
  }

  lemma UnsplitFirst(ls: seq<string>)
    requires |ls| > 1
    ensures Unsplit(ls) == ls[0] + ("\n" + Unsplit(ls[1..]))
  {
    ConcatAssoc(ls[0], "\n", Unsplit(ls[1..]));
  }

  lemma SplitUnsplit(ls: seq<string>)
    requires ls != [] && AreLines(ls)
    ensures Split(Unsplit(ls)) == ls
  {
    SplitJoined(ls, '\n');
  }

  lemma {:induction false} UnsplitConcat(a: seq<string>, b: seq<string>)
    requires a != [] && b != []
    ensures Unsplit(a + b) == Unsplit(a) + ("\n" + Unsplit(b))
  {
    UnsplitFirst(a + b);
    if |a| == 1 {
      assert (a + b)[1..] == b;
    } else {
      assert (a + b)[1..] == a[1..] + b;
      UnsplitConcat(a[1..], b);
      UnsplitFirst(a);
      ConcatAssoc(a[0], "\n" + Unsplit(a[1..]), "\n" + Unsplit(b));
      ConcatAssoc("\n", Unsplit(a[1..]), "\n" + Unsplit(b));
    }
  }

  /** A text ends in a line break exactly when its last part is empty and not the only one. */
  lemma LastPart(s: string)
    ensures var ls := Split(s); ls[|ls| - 1] == "" <==> s == "" || EndsInBreak(s)
  {
    var ls := Split(s);
    SplitParts(s);
    var last := ls[|ls| - 1];
    if |ls| == 1 {
      assert s == last;
    } else {
      assert ls == ls[..|ls| - 1] + [last];
      UnsplitConcat(ls[..|ls| - 1], [last]);
      assert s == Unsplit(ls[..|ls| - 1]) + ("\n" + last);
      assert IsLine(last);
      if last != "" { assert s[|s| - 1] == last[|last| - 1]; }
    }
  }

  lemma SplitLinesUnsplit(ls: seq<string>)
    requires AreLines(ls)
    ensures SplitLines(Unsplit(ls)) == if ls != [] && ls[|ls| - 1] == "" then ls[..|ls| - 1] else ls
  {
    if ls != [] { SplitUnsplit(ls); }
  }

  /** Splitting and joining lines drops at most one line break at the end. */
  lemma UnsplitSplitLines(s: string)
    ensures AreLines(SplitLines(s))
    ensures s == Unsplit(SplitLines(s)) + if EndsInBreak(s) then "\n" else ""
  {
    var ls := Split(s);
    SplitParts(s);
    LastPart(s);
    if ls[|ls| - 1] == "" && |ls| > 1 {
      assert ls == ls[..|ls| - 1] + [""];
      UnsplitConcat(ls[..|ls| - 1], [""]);
    }
  }

  /** The lines of a text with one line break added at its end. */
  lemma SplitWithBreak(ls: seq<string>)
    requires ls != [] && AreLines(ls)
    ensures Split(Unsplit(ls) + "\n") == ls + [""]
    ensures SplitLines(Unsplit(ls) + "\n") == ls
  {
    UnsplitConcat(ls, [""]);
    assert "\n" + Unsplit([""]) == "\n";
    SplitUnsplit(ls + [""]);
    assert (ls + [""])[..|ls|] == ls;
  }
}

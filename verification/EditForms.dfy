/**
 Which texts `edit_file` takes for one in the file, and what it puts in their place
 (services/dev_agent/service.py:698-731).
 */
module EditForms {
  import opened FileEdits
  import opened Lines
  import opened Options
  import opened Seqs
  import opened Text

  // ---- Every place is replaced ----

  /** The text cut at the places of the needle, from the left. */
  function Cut(s: string, needle: string): (pieces: seq<string>)
    requires needle != ""
    ensures pieces != []
    decreases |s|
  {
    if |s| < |needle| then [s]
    else if needle <= s then [""] + Cut(s[|needle|..], needle)
    else
      var rest := Cut(s[1..], needle);
      [[s[0]] + rest[0]] + rest[1..]
  }

  lemma JoinCons(first: string, rest: seq<string>, sep: string)
    requires rest != []
    ensures Join([first] + rest, sep) == first + sep + Join(rest, sep)
  {
    assert ([first] + rest)[1..] == rest;
  }

  lemma JoinGrows(c: char, pieces: seq<string>, sep: string)
    requires pieces != []
    ensures Join([[c] + pieces[0]] + pieces[1..], sep) == [c] + Join(pieces, sep)
  {
    var longer := [[c] + pieces[0]] + pieces[1..];
    if |pieces| > 1 {
      assert longer[1..] == pieces[1..];
      ConcatAssoc([c], pieces[0], sep);
      ConcatAssoc([c], pieces[0] + sep, Join(pieces[1..], sep));
    }
  }

  /** Between the pieces stood the needle and stands the replacement. */
  lemma {:induction false} ReplaceJoins(s: string, needle: string, repl: string)
    requires needle != ""
    ensures Join(Cut(s, needle), needle) == s && Join(Cut(s, needle), repl) == Replace(s, needle, repl)
    ensures |Cut(s, needle)| == Count(s, needle) + 1
    decreases |s|
  {
    if |s| < |needle| {
    } else if needle <= s {
      var rest := s[|needle|..];
      ReplaceJoins(rest, needle, repl);
      JoinCons("", Cut(rest, needle), needle);
      JoinCons("", Cut(rest, needle), repl);
      SplitAtPrefix(needle, s);
      assert "" + needle == needle && "" + repl == repl;
    } else {
      ReplaceJoins(s[1..], needle, repl);
      JoinGrows(s[0], Cut(s[1..], needle), needle);
      JoinGrows(s[0], Cut(s[1..], needle), repl);
      assert s == [s[0]] + s[1..];
    }
  }

  /** The needle stands behind the piece and nowhere before. */
  predicate IsFirstPlace(piece: string, needle: string) {
    forall i :: 0 <= i < |piece| ==> !OccursAt(piece + needle, needle, i)
  }

  lemma BeginsToo(text: string, needle: string, longer: string)
    requires text <= longer
    ensures OccursAt(text, needle, 0) ==> needle <= longer
  {
    if OccursAt(text, needle, 0) { assert longer[..|needle|] == text[0..|needle|]; }
  }

  lemma FirstPlaceGrows(c: char, piece: string, needle: string, s: string)
    requires needle != "" && IsFirstPlace(piece, needle) && [c] + piece + needle <= s && !(needle <= s)
    ensures IsFirstPlace([c] + piece, needle)
  {
    var longer := [c] + piece + needle;
    forall i | 0 <= i < |piece| + 1 ensures !OccursAt(longer, needle, i) {
      if i == 0 {
        BeginsToo(longer, needle, s);
      } else {
        assert longer[1..] == piece + needle;
        OccursShift(longer, needle, i - 1);
      }
    }
  }

  lemma PieceBegins(s: string, needle: string)
    requires needle != "" && |Cut(s, needle)| > 1
    ensures Cut(s, needle)[0] + needle <= s
  {
    ReplaceJoins(s, needle, "");
    var pieces := Cut(s, needle);
    assert pieces == [pieces[0]] + pieces[1..];
    JoinCons(pieces[0], pieces[1..], needle);
  }

  /** The places are taken from the left, and none is left out. */
  lemma {:induction false} PlacesFromTheLeft(s: string, needle: string)
    requires needle != ""
    ensures var pieces := Cut(s, needle);
            && (forall k :: 0 <= k < |pieces| - 1 ==> IsFirstPlace(pieces[k], needle))
            && !Contains(pieces[|pieces| - 1], needle)
    decreases |s|
  {
    if |s| < |needle| {
    } else if needle <= s {
      PlacesFromTheLeft(s[|needle|..], needle);
    } else {
      var rest, pieces := Cut(s[1..], needle), Cut(s, needle);
      PlacesFromTheLeft(s[1..], needle);
      if |pieces| > 1 {
        PieceBegins(s, needle);
        FirstPlaceGrows(s[0], rest[0], needle, s);
      } else {
        ReplaceJoins(s, needle, "");
        OccursIff(s, needle);
      }
    }
  }

  // ---- Line breaks ----

  /** The text with CRLF for every line break. */
  function WithReturns(s: string): string {
    if s == "" then "" else (if s[0] == '\n' then "\r\n" else [s[0]]) + WithReturns(s[1..])
  }

  lemma {:induction false} ReturnsGo(s: string)
    requires '\r' !in s
    ensures NormalizeBreaks(WithReturns(s)) == s
  {
    if s != "" {
      var t := WithReturns(s);
      ReturnsGo(s[1..]);
      if s[0] == '\n' {
        assert t[0] == '\r' && t[1] == '\n' && t[2..] == WithReturns(s[1..]);
      } else {
        assert t[1..] == WithReturns(s[1..]);
      }
      assert s == [s[0]] + s[1..];
    }
  }

  /** A text that stands in the file is found as it is, and with CRLF breaks as well; every place is replaced. */
  lemma ExactEdit(content: string, oldString: string, newString: string)
    requires '\r' !in oldString && '\r' !in newString && oldString != "" && Contains(content, oldString)
    ensures EditOf(content, oldString, newString) == Some(Edit(Replace(content, oldString, newString), Count(content, oldString)))
    ensures EditOf(content, WithReturns(oldString), WithReturns(newString)) == EditOf(content, oldString, newString)
  {
    OccursIff(content, oldString);
    NothingToNormalize(oldString);
    NothingToNormalize(newString);
    ReturnsGo(oldString);
    ReturnsGo(newString);
  }

  /** A text with CRLF breaks that stands in the file only so is replaced as it is given. */
  lemma ReturnsAreEdited(content: string, text: string, newString: string)
    requires '\r' !in text && text != "" && !Contains(content, text) && Contains(content, WithReturns(text))
    ensures EditOf(content, WithReturns(text), newString) ==
              Some(Edit(Replace(content, WithReturns(text), newString), Count(content, WithReturns(text))))
  {
    ReturnsGo(text);
    OccursIff(content, text);
    OccursIff(content, WithReturns(text));
  }

  // ---- Spaces at the ends of lines ----

  /** Each line with its spaces. */
  function Padded(lines: seq<string>, pads: seq<string>): (r: seq<string>)
    requires |pads| == |lines|
    ensures |r| == |lines| && forall i :: 0 <= i < |r| ==> r[i] == lines[i] + pads[i]
  {
    seq(|lines|, i requires 0 <= i < |lines| => lines[i] + pads[i])
  }

  predicate ArePads(lines: seq<string>, pads: seq<string>) {
    && |pads| == |lines|
    && forall i :: 0 <= i < |lines| ==> EndsSolid(lines[i]) && AllSpaces(pads[i]) && IsText(lines[i] + pads[i])
  }

  predicate EndsSolid(line: string) {
    line != "" ==> !IsSpace(line[|line| - 1])
  }

  predicate IsText(line: string) {
    IsLine(line) && '\r' !in line
  }

  lemma {:induction false} PadGoes(line: string, pad: string)
    requires EndsSolid(line) && AllSpaces(pad)
    ensures StripRight(line + pad) == line
  {
    if pad == "" {
      assert line + pad == line;
    } else {
      assert (line + pad)[..|line + pad| - 1] == line + pad[..|pad| - 1];
      PadGoes(line, pad[..|pad| - 1]);
    }
  }

  lemma {:induction false} PadsGo(lines: seq<string>, pads: seq<string>)
    requires ArePads(lines, pads)
    ensures StripEach(Padded(lines, pads)) == lines
  {
    if lines != [] {
      PadGoes(lines[0], pads[0]);
      assert Padded(lines, pads)[1..] == Padded(lines[1..], pads[1..]);
      PadsGo(lines[1..], pads[1..]);
      assert lines == [lines[0]] + lines[1..];
    }
  }

  lemma {:induction false} NoReturns(lines: seq<string>)
    requires forall i :: 0 <= i < |lines| ==> '\r' !in lines[i]
    ensures '\r' !in Unsplit(lines)
  {
    if |lines| > 1 {
      UnsplitFirst(lines);
      NoReturns(lines[1..]);
    }
  }

  lemma PaddedTrims(lines: seq<string>, pads: seq<string>)
    requires ArePads(lines, pads) && lines != [] && Padded(lines, pads)[|lines| - 1] != ""
    ensures StripTrailing(Unsplit(Padded(lines, pads))) == Unsplit(lines)
    ensures NormalizeBreaks(Unsplit(Padded(lines, pads))) == Unsplit(Padded(lines, pads))
  {
    var padded := Padded(lines, pads);
    SplitLinesUnsplit(padded);
    PadsGo(lines, pads);
    NoReturns(padded);
    NothingToNormalize(Unsplit(padded));
  }

  /**
   Lines pasted with other spaces at their ends are found in the file all the same, if the paste as
   it is does not stand there and carries no line numbers.
   */
  lemma SpacesAreForgiven(content: string, lines: seq<string>, pads: seq<string>, newString: string)
    requires ArePads(lines, pads) && lines != [] && Padded(lines, pads)[|lines| - 1] != ""
    requires Unsplit(lines) != "" && Contains(content, Unsplit(lines)) && !Contains(content, Unsplit(Padded(lines, pads)))
    requires StripLabels(Unsplit(Padded(lines, pads)), true) == Unsplit(Padded(lines, pads))
    ensures FindMatch(content, Unsplit(Padded(lines, pads)), newString) ==
              Some(Match(Unsplit(lines), StripTrailing(NormalizeBreaks(newString))))
  {
    var old_ := Unsplit(Padded(lines, pads));
    PaddedTrims(lines, pads);
    OccursIff(content, Unsplit(lines));
    if old_ != "" { OccursIff(content, old_); }
  }
}

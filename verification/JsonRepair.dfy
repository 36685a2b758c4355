/**
 Bracket repair and bracket scan of packages/shared_utils/json_utils.py:12-21 and 100-126, for text
 whose brackets all lie outside string literals (RFC 8259, sections 4 and 5).
 */
module JsonRepair {
  import opened Options
  import opened Text

  predicate IsOpener(c: char) {
    c == '{' || c == '['
  }

  predicate IsCloser(c: char) {
    c == '}' || c == ']'
  }

  predicate IsBracket(c: char) {
    IsOpener(c) || IsCloser(c)
  }

  function CloserOf(open: char): char {
    if open == '{' then '}' else ']'
  }

  // ---- The source's operations ----

  function Count(s: string, c: char): nat {
    if s == [] then 0 else Count(s[..|s| - 1], c) + if s[|s| - 1] == c then 1 else 0
  }

  function Repeat(c: char, n: int): (r: string)
    ensures |r| == (if n > 0 then n else 0) && forall i :: 0 <= i < |r| ==> r[i] == c
  {
    if n <= 0 then [] else seq(n, _ => c)
  }

  /** The whitespace at the head of `s` that `\s*` takes. */
  function SpaceRun(s: string): (n: nat)
    ensures n <= |s| && forall i :: 0 <= i < n ==> IsSpace(s[i])
  {
    if s != [] && IsSpace(s[0]) then 1 + SpaceRun(s[1..]) else 0
  }

  /** `re.sub(r",\s*([}\]])", r"\1", s)` */
  function RemoveTrailingCommas(s: string): string {
    if s == [] then []
    else if s[0] == ',' then
      var n := SpaceRun(s[1..]) + 1;
      if n < |s| && IsCloser(s[n]) then [s[n]] + RemoveTrailingCommas(s[n + 1..])
      else [','] + RemoveTrailingCommas(s[1..])
    else [s[0]] + RemoveTrailingCommas(s[1..])
  }

  /** `_repair_truncated_json` */
  function Repair(text: string): string {
    var s := Strip(text);
    if s == [] then "{}"
    else
      var openBraces := Count(s, '{') - Count(s, '}');
      var openBrackets := Count(s, '[') - Count(s, ']');
      RemoveTrailingCommas(s) + Repeat(']', openBrackets) + Repeat('}', openBraces)
  }

  // ---- Well-nested words ----

  /** The grammar of well-nested text: plain characters and bracketed words. */
  datatype Word = End | Plain(c: char, rest: Word) | Wrap(open: char, inner: Word, rest: Word)

  predicate Proper(w: Word) {
    match w
    case End => true
    case Plain(c, rest) => !IsBracket(c) && Proper(rest)
    case Wrap(open, inner, rest) => IsOpener(open) && Proper(inner) && Proper(rest)
  }

  function Show(w: Word): string {
    match w
    case End => []
    case Plain(c, rest) => [c] + Show(rest)
    case Wrap(open, inner, rest) => [open] + Show(inner) + [CloserOf(open)] + Show(rest)
  }

  ghost predicate WellNested(s: string) {
    exists w :: Proper(w) && Show(w) == s
  }

  ghost predicate PrefixOfWellNested(s: string) {
    exists t :: WellNested(s + t)
  }

  function Append(v: Word, w: Word): Word {
    match v
    case End => w
    case Plain(c, rest) => Plain(c, Append(rest, w))
    case Wrap(open, inner, rest) => Wrap(open, inner, Append(rest, w))
  }

  lemma {:induction false} ShowAppend(v: Word, w: Word)
    requires Proper(v) && Proper(w)
    ensures Proper(Append(v, w)) && Show(Append(v, w)) == Show(v) + Show(w)
  {
    match v
    case End =>
    case Plain(c, rest) => ShowAppend(rest, w);
    case Wrap(open, inner, rest) => ShowAppend(rest, w);
  }

  // ---- The stack of unclosed openers ----

  /** One character of the scan; `None` when a closer does not match. The top of the stack is its end. */
  function Push(stack: Option<string>, c: char): Option<string> {
    if stack == None || !IsBracket(c) then stack
    else if IsOpener(c) then Some(stack.value + [c])
    else if stack.value != [] && CloserOf(stack.value[|stack.value| - 1]) == c then Some(stack.value[..|stack.value| - 1])
    else None
  }

  function Scan(s: string, stack: Option<string>): Option<string> {
    if s == [] then stack else Push(Scan(s[..|s| - 1], stack), s[|s| - 1])
  }

  function Unclosed(s: string): Option<string> {
    Scan(s, Some([]))
  }

  predicate AllOpeners(s: string) {
    forall i :: 0 <= i < |s| ==> IsOpener(s[i])
  }

  lemma {:induction false} ScanConcat(s: string, t: string, stack: Option<string>)
    ensures Scan(s + t, stack) == Scan(t, Scan(s, stack))
  {
    if t == [] {
      assert s + t == s;
    } else {
      assert (s + t)[..|s + t| - 1] == s + t[..|t| - 1];
      ScanConcat(s, t[..|t| - 1], stack);
    }
  }

  lemma ScanOne(c: char, stack: Option<string>)
    ensures Scan([c], stack) == Push(stack, c)
  {
    assert [c][..0] == [];
    assert Scan([], stack) == stack;
  }

  lemma {:induction false} ScanFails(s: string)
    ensures Scan(s, None) == None
  {
    if s != [] { ScanFails(s[..|s| - 1]); }
  }

  /** A well-nested word leaves the stack as it is. */
  lemma {:induction false} ScanWord(w: Word, stack: string)
    requires Proper(w)
    ensures Scan(Show(w), Some(stack)) == Some(stack)
    decreases w
  {
    match w
    case End =>
    case Plain(c, rest) =>
      ScanConcat([c], Show(rest), Some(stack));
      ScanOne(c, Some(stack));
      ScanWord(rest, stack);
    case Wrap(open, inner, rest) =>
      var s1, close := [open] + Show(inner), CloserOf(open);
      ScanConcat([open], Show(inner), Some(stack));
      ScanOne(open, Some(stack));
      ScanWord(inner, stack + [open]);
      ScanConcat(s1, [close], Some(stack));
      ScanOne(close, Some(stack + [open]));
      assert (stack + [open])[..|stack|] == stack;
      ScanConcat(s1 + [close], Show(rest), Some(stack));
      ScanWord(rest, stack);
  }

  /** The text between the unclosed openers: `frames[0] open[0] frames[1] open[1] ...`. */
  function Framed(frames: seq<Word>, opens: string): string
    requires |frames| == |opens| + 1
  {
    if opens == [] then Show(frames[0])
    else Framed(frames[..|frames| - 1], opens[..|opens| - 1]) + [opens[|opens| - 1]] + Show(frames[|frames| - 1])
  }

  ghost predicate AllProper(frames: seq<Word>) {
    forall i :: 0 <= i < |frames| ==> Proper(frames[i])
  }

  /** The last frame grows by a word. */
  lemma ExtendLast(frames: seq<Word>, opens: string, w: Word) returns (frames': seq<Word>)
    requires |frames| == |opens| + 1 && AllProper(frames) && Proper(w)
    ensures |frames'| == |opens| + 1 && AllProper(frames') && Framed(frames', opens) == Framed(frames, opens) + Show(w)
  {
    var n := |frames| - 1;
    ShowAppend(frames[n], w);
    frames' := frames[n := Append(frames[n], w)];
    assert frames'[..n] == frames[..n];
  }

  /** A closer turns the last two frames into one. */
  lemma CloseFrame(frames: seq<Word>, opens: string) returns (frames': seq<Word>)
    requires opens != [] && |frames| == |opens| + 1 && AllProper(frames) && AllOpeners(opens)
    ensures var n := |opens| - 1;
            && |frames'| == n + 1 && AllProper(frames')
            && Framed(frames', opens[..n]) == Framed(frames, opens) + [CloserOf(opens[n])]
  {
    var n := |opens| - 1;
    var w := Wrap(opens[n], frames[n + 1], End);
    assert Show(w) == [opens[n]] + Show(frames[n + 1]) + [CloserOf(opens[n])];
    frames' := ExtendLast(frames[..n + 1], opens[..n], w);
    assert Framed(frames, opens) == Framed(frames[..n + 1], opens[..n]) + [opens[n]] + Show(frames[n + 1]);
  }

  /** Scanned text is well-nested words around its unclosed openers. */
  lemma {:induction false} ScanFrames(s: string) returns (frames: seq<Word>)
    requires Unclosed(s).Some?
    ensures |frames| == |Unclosed(s).value| + 1 && AllProper(frames) && AllOpeners(Unclosed(s).value)
    ensures Framed(frames, Unclosed(s).value) == s
  {
    if s == [] {
      frames := [End];
    } else {
      var t, c := s[..|s| - 1], s[|s| - 1];
      assert s == t + [c];
      var inner := ScanFrames(t);
      var opens := Unclosed(t).value;
      if !IsBracket(c) {
        frames := ExtendLast(inner, opens, Plain(c, End));
      } else if IsOpener(c) {
        frames := inner + [End];
        assert frames[..|inner|] == inner && (opens + [c])[..|opens|] == opens;
      } else {
        frames := CloseFrame(inner, opens);
      }
    }
  }

  /** The grammar and the stack scan agree. */
  lemma WellNestedIffScan(s: string)
    ensures WellNested(s) <==> Unclosed(s) == Some([])
  {
    if w :| Proper(w) && Show(w) == s {
      ScanWord(w, []);
    }
    if Unclosed(s) == Some([]) {
      var frames := ScanFrames(s);
      assert Show(frames[0]) == s;
    }
  }

  function Closers(opens: string): string {
    if opens == [] then [] else [CloserOf(opens[|opens| - 1])] + Closers(opens[..|opens| - 1])
  }

  lemma {:induction false} ClosersClose(opens: string)
    requires AllOpeners(opens)
    ensures Scan(Closers(opens), Some(opens)) == Some([])
  {
    if opens != [] {
      var n := |opens| - 1;
      ScanConcat([CloserOf(opens[n])], Closers(opens[..n]), Some(opens));
      ScanOne(CloserOf(opens[n]), Some(opens));
      ClosersClose(opens[..n]);
    }
  }

  lemma PrefixIffScan(s: string)
    ensures PrefixOfWellNested(s) <==> Unclosed(s).Some?
  {
    if t :| WellNested(s + t) {
      WellNestedIffScan(s + t);
      ScanConcat(s, t, Some([]));
      ScanFails(t);
    }
    if Unclosed(s).Some? {
      var frames := ScanFrames(s);
      var t := Closers(Unclosed(s).value);
      ScanConcat(s, t, Some([]));
      ClosersClose(Unclosed(s).value);
      WellNestedIffScan(s + t);
    }
  }

  // ---- Stripping and comma removal leave the brackets alone ----

  predicate NoBrackets(s: string) {
    forall i :: 0 <= i < |s| ==> !IsBracket(s[i])
  }

  lemma {:induction false} ScanPlain(s: string, stack: Option<string>, c: char)
    requires NoBrackets(s) && IsBracket(c)
    ensures Scan(s, stack) == stack && Count(s, c) == 0
  {
    if s != [] { ScanPlain(s[..|s| - 1], stack, c); }
  }

  lemma {:induction false} CountConcat(s: string, t: string, c: char)
    ensures Count(s + t, c) == Count(s, c) + Count(t, c)
  {
    if t == [] {
      assert s + t == s;
    } else {
      assert (s + t)[..|s + t| - 1] == s + t[..|t| - 1];
      CountConcat(s, t[..|t| - 1], c);
    }
  }

  /** Two texts that differ only outside the brackets. */
  ghost predicate SameBrackets(s: string, t: string) {
    && (forall stack :: Scan(s, stack) == Scan(t, stack))
    && (forall c :: IsBracket(c) ==> Count(s, c) == Count(t, c))
  }

  lemma SameBracketsConcat(s: string, t: string, s': string, t': string)
    requires SameBrackets(s, s') && SameBrackets(t, t')
    ensures SameBrackets(s + t, s' + t')
  {
    forall stack ensures Scan(s + t, stack) == Scan(s' + t', stack) {
      ScanConcat(s, t, stack);
      ScanConcat(s', t', stack);
    }
    forall c | IsBracket(c) ensures Count(s + t, c) == Count(s' + t', c) {
      CountConcat(s, t, c);
      CountConcat(s', t', c);
    }
  }

  lemma SameBracketsTrans(s: string, t: string, u: string)
    requires SameBrackets(s, t) && SameBrackets(t, u)
    ensures SameBrackets(s, u)
  {
  }

  lemma DropPlain(head: string, s: string, tail: string)
    requires NoBrackets(head) && NoBrackets(tail)
    ensures SameBrackets(s, head + s) && SameBrackets(s, s + tail)
  {
    forall stack ensures Scan(s, stack) == Scan(head + s, stack) == Scan(s + tail, stack) {
      ScanConcat(head, s, stack);
      ScanConcat(s, tail, stack);
      ScanPlain(head, stack, '{');
      ScanPlain(tail, Scan(s, stack), '{');
    }
    forall c | IsBracket(c) ensures Count(s, c) == Count(head + s, c) == Count(s + tail, c) {
      CountConcat(head, s, c);
      CountConcat(s, tail, c);
      ScanPlain(head, None, c);
      ScanPlain(tail, None, c);
    }
  }

  lemma SpacesAreNoBrackets(s: string)
    requires AllSpaces(s)
    ensures NoBrackets(s)
  {
  }

  lemma SameBracketsStrip(s: string)
    ensures SameBrackets(Strip(s), s)
  {
    var head, tail := StripParts(s);
    SpacesAreNoBrackets(head);
    SpacesAreNoBrackets(tail);
    DropPlain([], Strip(s), tail);
    DropPlain(head, Strip(s) + tail, []);
    SameBracketsTrans(Strip(s), Strip(s) + tail, head + (Strip(s) + tail));
    assert head + (Strip(s) + tail) == s;
  }

  lemma CommaIsNoBracket(s: string, n: nat)
    requires s != "" && s[0] == ',' && n == SpaceRun(s[1..]) + 1 && n < |s|
    ensures NoBrackets(s[..n])
  {
    forall i | 0 <= i < n ensures !IsBracket(s[..n][i]) {
      if i > 0 { assert IsSpace(s[1..][i - 1]); }
    }
  }

  lemma DropHead(head: string, c: char, rest: string, cleaned: string, s: string)
    requires s == head + ([c] + rest) && NoBrackets(head) && SameBrackets(cleaned, rest)
    ensures SameBrackets([c] + cleaned, s)
  {
    SameBracketsConcat([c], cleaned, [c], rest);
    DropPlain(head, [c] + rest, []);
    SameBracketsTrans([c] + cleaned, [c] + rest, s);
  }

  lemma {:induction false} SameBracketsCommas(s: string)
    ensures SameBrackets(RemoveTrailingCommas(s), s)
    decreases |s|
  {
    if s == [] {
    } else if s[0] == ',' && (var n := SpaceRun(s[1..]) + 1; n < |s| && IsCloser(s[n])) {
      var n := SpaceRun(s[1..]) + 1;
      var rest := s[n + 1..];
      assert s == s[..n] + ([s[n]] + rest);
      CommaIsNoBracket(s, n);
      SameBracketsCommas(rest);
      DropHead(s[..n], s[n], rest, RemoveTrailingCommas(rest), s);
    } else {
      var rest := s[1..];
      assert s == [] + ([s[0]] + rest);
      SameBracketsCommas(rest);
      DropHead([], s[0], rest, RemoveTrailingCommas(rest), s);
    }
  }

  // ---- Closing the unclosed openers ----

  lemma {:induction false} UnclosedAreOpeners(s: string)
    requires Unclosed(s).Some?
    ensures AllOpeners(Unclosed(s).value)
  {
    if s != [] {
      UnclosedAreOpeners(s[..|s| - 1]);
    }
  }

  /** The unclosed openers of a kind are what the counts differ by. */
  lemma {:induction false} NetIsUnclosed(s: string, open: char)
    requires Unclosed(s).Some? && IsOpener(open)
    ensures Count(s, open) - Count(s, CloserOf(open)) == Count(Unclosed(s).value, open)
  {
    if s != [] {
      var t, c := s[..|s| - 1], s[|s| - 1];
      NetIsUnclosed(t, open);
      UnclosedAreOpeners(t);
      var opens := Unclosed(t).value;
      if IsOpener(c) {
        assert (opens + [c])[..|opens|] == opens;
      } else if IsCloser(c) {
        assert Unclosed(s).value == opens[..|opens| - 1];
      }
    }
  }

  lemma {:induction false} CountRepeat(c: char, n: nat, d: char)
    ensures Count(Repeat(c, n), d) == if c == d then n else 0
  {
    if n > 0 {
      assert Repeat(c, n)[..n - 1] == Repeat(c, n - 1);
      CountRepeat(c, n - 1, d);
    }
  }

  predicate AllAre(s: string, c: char) {
    forall i :: 0 <= i < |s| ==> s[i] == c
  }

  lemma AllAreCons(x: char, s: string, c: char)
    ensures AllAre([x] + s, c) <==> x == c && AllAre(s, c)
  {
    assert ([x] + s)[0] == x;
    assert forall i :: 0 <= i < |s| ==> ([x] + s)[i + 1] == s[i];
  }

  lemma CloseTop(open: char, opens: string)
    requires IsOpener(open) && AllOpeners(opens) && opens != []
    ensures Push(Some(opens), CloserOf(open)) ==
              if opens[|opens| - 1] == open then Some(opens[..|opens| - 1]) else None
  {
  }

  lemma OneMoreCloser(c: char, n: nat, stack: Option<string>)
    requires n > 0
    ensures Scan(Repeat(c, n), stack) == Push(Scan(Repeat(c, n - 1), stack), c)
  {
    assert Repeat(c, n)[..n - 1] == Repeat(c, n - 1);
  }

  /** What is left of the openers after `n` closers of one kind. */
  function AfterClosers(open: char, n: nat, opens: string): Option<string> {
    if n <= |opens| && AllAre(opens[|opens| - n..], open) then Some(opens[..|opens| - n]) else None
  }

  lemma NextCloser(open: char, n: nat, opens: string)
    requires IsOpener(open) && AllOpeners(opens) && n > 0
    ensures Push(AfterClosers(open, n - 1, opens), CloserOf(open)) == AfterClosers(open, n, opens)
  {
    if n <= |opens| {
      var k := |opens| - n;
      assert opens[k..] == [opens[k]] + opens[k + 1..];
      AllAreCons(opens[k], opens[k + 1..], open);
      assert opens[..k + 1][..k] == opens[..k];
      CloseTop(open, opens[..k + 1]);
    }
  }

  /** `n` closers of one kind close exactly `n` openers of that kind at the top. */
  lemma {:induction false} ScanClosers(open: char, n: nat, opens: string)
    requires IsOpener(open) && AllOpeners(opens)
    ensures Scan(Repeat(CloserOf(open), n), Some(opens)) == AfterClosers(open, n, opens)
  {
    if n == 0 {
      assert opens[..|opens|] == opens;
    } else {
      ScanClosers(open, n - 1, opens);
      OneMoreCloser(CloserOf(open), n, Some(opens));
      NextCloser(open, n, opens);
    }
  }

  lemma {:induction false} CountAll(s: string, c: char)
    ensures Count(s, c) <= |s|
    ensures AllAre(s, c) ==> Count(s, c) == |s|
  {
    if s != [] {
      CountAll(s[..|s| - 1], c);
    }
  }

  lemma {:induction false} CountNone(s: string, c: char)
    requires forall i :: 0 <= i < |s| ==> s[i] != c
    ensures Count(s, c) == 0
  {
    if s != [] {
      CountNone(s[..|s| - 1], c);
    }
  }

  predicate SplitsAt(opens: string, k: nat) {
    k <= |opens| && AllAre(opens[..k], '{') && AllAre(opens[k..], '[')
  }

  /** Every brace is below every bracket. */
  predicate BracesThenBrackets(opens: string) {
    exists k: nat :: k <= |opens| && SplitsAt(opens, k)
  }

  lemma {:induction false} OpenersAddUp(opens: string)
    requires AllOpeners(opens)
    ensures Count(opens, '{') + Count(opens, '[') == |opens|
  {
    if opens != [] { OpenersAddUp(opens[..|opens| - 1]); }
  }

  lemma SplitCounts(opens: string, k: nat)
    requires SplitsAt(opens, k)
    ensures Count(opens, '[') == |opens| - k
  {
    assert opens == opens[..k] + opens[k..];
    CountConcat(opens[..k], opens[k..], '[');
    CountNone(opens[..k], '[');
    CountAll(opens[k..], '[');
  }

  /** Where the brackets on top are as many as there are brackets, the rest is braces. */
  lemma TopBracketsSplit(opens: string, k: nat)
    requires AllOpeners(opens) && k <= |opens| && AllAre(opens[k..], '[') && Count(opens, '[') == |opens| - k
    ensures SplitsAt(opens, k)
  {
    assert opens == opens[..k] + opens[k..];
    CountConcat(opens[..k], opens[k..], '[');
    CountAll(opens[k..], '[');
    forall i | 0 <= i < k ensures opens[..k][i] == '{' {
      if opens[i] == '[' { CountOne(opens[..k], i); }
    }
  }

  lemma {:induction false} CountOne(s: string, i: nat)
    requires i < |s|
    ensures Count(s, s[i]) > 0
  {
    if i < |s| - 1 {
      CountOne(s[..|s| - 1], i);
    }
  }

  /** Brackets first, then braces, close the stack exactly when it is all braces followed by all brackets. */
  lemma ClosingOrder(opens: string)
    requires AllOpeners(opens)
    ensures Scan(Repeat(']', Count(opens, '[')) + Repeat('}', Count(opens, '{')), Some(opens)) == Some([])
            <==> BracesThenBrackets(opens)
  {
    var n, m := Count(opens, '['), Count(opens, '{');
    OpenersAddUp(opens);
    var k := |opens| - n;
    ScanConcat(Repeat(']', n), Repeat('}', m), Some(opens));
    ScanClosers('[', n, opens);
    if AllAre(opens[k..], '[') {
      TopBracketsSplit(opens, k);
      ScanClosers('{', m, opens[..k]);
      assert opens[..k][0..] == opens[..k];
    } else {
      ScanFails(Repeat('}', m));
      forall j: nat | j <= |opens| && SplitsAt(opens, j) ensures j == k { SplitCounts(opens, j); }
    }
  }

  // ---- Main results ----

  function Closing(text: string): string {
    Repeat(']', Count(text, '[') - Count(text, ']')) + Repeat('}', Count(text, '{') - Count(text, '}'))
  }

  lemma RepairBrackets(text: string)
    requires Strip(text) != []
    ensures SameBrackets(Repair(text), text + Closing(text))
  {
    var s := Strip(text);
    SameBracketsStrip(text);
    SameBracketsCommas(s);
    assert Closing(s) == Closing(text);
    assert Repair(text) == RemoveTrailingCommas(s) + Closing(text);
    SameBracketsTrans(RemoveTrailingCommas(s), s, text);
    SameBracketsConcat(RemoveTrailingCommas(s), Closing(text), text, Closing(text));
  }

  lemma ClosingCounts(text: string, c: char)
    requires IsBracket(c)
    ensures var braces, brackets := Count(text, '{') - Count(text, '}'), Count(text, '[') - Count(text, ']');
            Count(Closing(text), c) == if c == ']' && brackets > 0 then brackets else if c == '}' && braces > 0 then braces else 0
  {
    var braces, brackets := Count(text, '{') - Count(text, '}'), Count(text, '[') - Count(text, ']');
    CountConcat(Repeat(']', brackets), Repeat('}', braces), c);
    if brackets > 0 { CountRepeat(']', brackets, c); }
    if braces > 0 { CountRepeat('}', braces, c); }
  }

  /** The repaired text has as many closers as openers exactly when the input has no surplus closers. */
  lemma RepairBalances(text: string, open: char)
    requires Strip(text) != [] && IsOpener(open)
    ensures Count(Repair(text), open) == Count(Repair(text), CloserOf(open)) <==> Count(text, open) >= Count(text, CloserOf(open))
  {
    RepairBrackets(text);
    ClosingCounts(text, open);
    ClosingCounts(text, CloserOf(open));
    CountConcat(text, Closing(text), open);
    CountConcat(text, Closing(text), CloserOf(open));
  }

  lemma BlankIsEmptyObject(text: string)
    requires Strip(text) == []
    ensures Unclosed(text) == Some([]) && BracesThenBrackets([]) && WellNested(Repair(text))
    ensures Count(Repair(text), '{') == 1 && Count(Repair(text), '}') == 1
    ensures Count(Repair(text), '[') == 0 && Count(Repair(text), ']') == 0
  {
    SameBracketsStrip(text);
    assert Scan([], Some([])) == Some([]);
    assert SplitsAt([], 0);
    assert Proper(Wrap('{', End, End)) && Show(Wrap('{', End, End)) == "{}";
    assert "{}"[..1] == "{" && "{"[..0] == "";
  }

  /**
   A truncated well-nested text is repaired to zero net brackets always, and to a well-nested text
   exactly when its unclosed openers are all braces followed by all brackets.
   */
  lemma RepairCompletes(text: string)
    requires PrefixOfWellNested(text)
    ensures Unclosed(text).Some?
    ensures Count(Repair(text), '{') == Count(Repair(text), '}') && Count(Repair(text), '[') == Count(Repair(text), ']')
    ensures WellNested(Repair(text)) <==> BracesThenBrackets(Unclosed(text).value)
  {
    PrefixIffScan(text);
    if Strip(text) == [] {
      BlankIsEmptyObject(text);
    } else {
      RepairNonBlank(text);
    }
  }

  lemma RepairScan(text: string)
    requires Strip(text) != []
    ensures Unclosed(Repair(text)) == Scan(Closing(text), Unclosed(text))
  {
    RepairBrackets(text);
    ScanConcat(text, Closing(text), Some([]));
    assert Scan(Repair(text), Some([])) == Scan(text + Closing(text), Some([]));
  }

  lemma RepairNet(text: string)
    requires Unclosed(text).Some? && Strip(text) != []
    ensures Count(Repair(text), '{') == Count(Repair(text), '}') && Count(Repair(text), '[') == Count(Repair(text), ']')
  {
    NetIsUnclosed(text, '{');
    NetIsUnclosed(text, '[');
    RepairBalances(text, '{');
    RepairBalances(text, '[');
  }

  lemma ClosingOfUnclosed(text: string)
    requires Unclosed(text).Some?
    ensures var opens := Unclosed(text).value;
            Closing(text) == Repeat(']', Count(opens, '[')) + Repeat('}', Count(opens, '{'))
  {
    NetIsUnclosed(text, '{');
    NetIsUnclosed(text, '[');
  }

  lemma RepairNonBlank(text: string)
    requires Unclosed(text).Some? && Strip(text) != []
    ensures Count(Repair(text), '{') == Count(Repair(text), '}') && Count(Repair(text), '[') == Count(Repair(text), ']')
    ensures WellNested(Repair(text)) <==> BracesThenBrackets(Unclosed(text).value)
  {
    RepairNet(text);
    RepairScan(text);
    ClosingOfUnclosed(text);
    UnclosedAreOpeners(text);
    ClosingOrder(Unclosed(text).value);
    WellNestedIffScan(Repair(text));
  }

  lemma ScanBracketBrace()
    ensures Unclosed("[{") == Some("[{")
  {
    ScanConcat("[", "{", Some([]));
    ScanOne('[', Some([]));
    ScanOne('{', Some("["));
    assert "[" + "{" == "[{" && [] + ['['] == "[" && "[" + ['{'] == "[{";
  }

  /** A brace left open inside a bracket: the smallest input that is not completed. */
  lemma BracketThenBraceFails()
    ensures PrefixOfWellNested("[{") && !WellNested(Repair("[{"))
  {
    var s := "[{";
    ScanBracketBrace();
    PrefixIffScan(s);
    RepairCompletes(s);
    assert s[0] == '[' && s[1] == '{';
    forall k: nat | k <= |s| ensures !SplitsAt(s, k) {
      if k == 0 { assert s[0..][1] == '{'; } else { assert s[..k][0] == '['; }
    }
  }

  // ---- The brace scan of `extract_json` ----

  /** Index of the brace that brings the depth back to zero, counting braces only; -1 when there is none. */
  function BraceEnd(text: string, i: nat, depth: int): (end: int)
    requires i <= |text|
    ensures -1 <= end < |text|
    decreases |text| - i
  {
    if i == |text| then -1
    else if text[i] == '{' then BraceEnd(text, i + 1, depth + 1)
    else if text[i] == '}' then if depth == 1 then i else BraceEnd(text, i + 1, depth - 1)
    else BraceEnd(text, i + 1, depth)
  }

  method FindBraceEnd(text: string, start: nat) returns (end: int)
    requires start <= |text|
    ensures end == BraceEnd(text, start, 0)
  {
    var depth := 0;
    for i := start to |text|
      invariant BraceEnd(text, start, 0) == BraceEnd(text, i, depth)
    {
      if text[i] == '{' {
        depth := depth + 1;
      } else if text[i] == '}' {
        depth := depth - 1;
        if depth == 0 {
          return i;
        }
      }
    }
    return -1;
  }

  predicate Stands(text: string, at: nat, s: string) {
    at + |s| <= |text| && forall i :: 0 <= i < |s| ==> text[at + i] == s[i]
  }

  lemma StandsBoth(text: string, at: nat, s: string, t: string)
    requires Stands(text, at, s + t)
    ensures Stands(text, at, s) && Stands(text, at + |s|, t)
  {
    forall i | 0 <= i < |s| ensures text[at + i] == s[i] { assert (s + t)[i] == s[i]; }
    forall i | 0 <= i < |t| ensures text[at + |s| + i] == t[i] { assert (s + t)[|s| + i] == t[i]; }
  }

  lemma PastPlain(text: string, at: nat, depth: int)
    requires at < |text| && text[at] != '{' && text[at] != '}'
    ensures BraceEnd(text, at, depth) == BraceEnd(text, at + 1, depth)
  {
  }

  lemma PastOpen(text: string, at: nat, depth: int)
    requires at < |text| && text[at] == '{'
    ensures BraceEnd(text, at, depth) == BraceEnd(text, at + 1, depth + 1)
  {
  }

  lemma PastClose(text: string, at: nat, depth: int)
    requires at < |text| && text[at] == '}' && depth > 1
    ensures BraceEnd(text, at, depth) == BraceEnd(text, at + 1, depth - 1)
  {
  }

  lemma WrapStands(text: string, at: nat, open: char, inner: string, close: char, rest: string)
    requires Stands(text, at, [open] + inner + [close] + rest)
    ensures at + 2 + |inner| + |rest| <= |text| && text[at] == open && text[at + 1 + |inner|] == close
    ensures Stands(text, at + 1, inner) && Stands(text, at + 2 + |inner|, rest)
  {
    StandsBoth(text, at, [open] + inner + [close], rest);
    StandsBoth(text, at, [open] + inner, [close]);
    StandsBoth(text, at, [open], inner);
    StandsOne(text, at, open);
    StandsOne(text, at + 1 + |inner|, close);
  }

  lemma StandsOne(text: string, at: nat, c: char)
    requires Stands(text, at, [c])
    ensures at < |text| && text[at] == c
  {
    assert text[at + 0] == [c][0];
  }

  /** A proper word that stands in the text is passed by the scan. */
  lemma {:induction false} ScanPastWord(text: string, at: nat, w: Word, depth: int)
    requires Proper(w) && depth >= 1 && Stands(text, at, Show(w))
    ensures BraceEnd(text, at, depth) == BraceEnd(text, at + |Show(w)|, depth)
    decreases w
  {
    match w
    case End =>
    case Plain(c, rest) =>
      StandsBoth(text, at, [c], Show(rest));
      StandsOne(text, at, c);
      PastPlain(text, at, depth);
      ScanPastWord(text, at + 1, rest, depth);
    case Wrap(open, inner, rest) =>
      var close, n := CloserOf(open), |Show(inner)|;
      WrapStands(text, at, open, Show(inner), close, Show(rest));
      if open == '{' {
        PastOpen(text, at, depth);
        ScanPastWord(text, at + 1, inner, depth + 1);
        PastClose(text, at + 1 + n, depth + 1);
      } else {
        PastPlain(text, at, depth);
        ScanPastWord(text, at + 1, inner, depth);
        PastPlain(text, at + 1 + n, depth);
      }
      ScanPastWord(text, at + 2 + n, rest, depth);
  }

  lemma ObjectStands(a: string, shown: string, b: string, text: string)
    requires text == a + "{" + shown + "}" + b
    ensures |a| + 1 + |shown| < |text| && text[|a|] == '{' && text[|a| + 1 + |shown|] == '}'
    ensures Stands(text, |a| + 1, shown)
  {
  }

  /** The scan started at an opening brace ends at the brace that matches it, whatever brackets lie between. */
  lemma BraceScanFindsMatch(a: string, inner: Word, b: string)
    requires Proper(inner)
    ensures BraceEnd(a + "{" + Show(inner) + "}" + b, |a|, 0) == |a| + 1 + |Show(inner)|
  {
    var text, shown := a + "{" + Show(inner) + "}" + b, Show(inner);
    ObjectStands(a, shown, b, text);
    PastOpen(text, |a|, 0);
    ScanPastWord(text, |a| + 1, inner, 1);
  }

  function Find(s: string, c: char): (i: int)
    ensures -1 <= i < |s|
    ensures i >= 0 ==> s[i] == c && forall j :: 0 <= j < i ==> s[j] != c
    ensures i == -1 ==> forall j :: 0 <= j < |s| ==> s[j] != c
  {
    if s == [] then -1
    else if s[0] == c then 0
    else var i := Find(s[1..], c); if i == -1 then -1 else i + 1
  }

  function FindLast(s: string, c: char): (i: int)
    ensures -1 <= i < |s|
    ensures i >= 0 ==> s[i] == c && forall j :: i < j < |s| ==> s[j] != c
    ensures i == -1 ==> forall j :: 0 <= j < |s| ==> s[j] != c
  {
    if s == [] then -1
    else if s[|s| - 1] == c then |s| - 1
    else FindLast(s[..|s| - 1], c)
  }

  /** The slice that `extract_json` tries to parse; `None` when there is no opener. */
  method ExtractCandidate(text: string) returns (content: Option<string>)
    ensures content == Candidate(text)
  {
    var braceStart, bracketStart := Find(text, '{'), Find(text, '[');
    var start, end := -1, -1;
    if braceStart != -1 && (bracketStart == -1 || braceStart < bracketStart) {
      start := braceStart;
      end := FindBraceEnd(text, start);
      if end == -1 {
        end := FindLast(text, '}');
      }
    } else if bracketStart != -1 {
      start := bracketStart;
      end := FindLast(text, ']');
    }
    if start == -1 {
      return None;
    }
    return Some(if end > start then text[start..end + 1] else text[start..]);
  }

  function Candidate(text: string): Option<string> {
    var braceStart, bracketStart := Find(text, '{'), Find(text, '[');
    if braceStart != -1 && (bracketStart == -1 || braceStart < bracketStart) then
      var end := BraceEnd(text, braceStart, 0);
      Some(Slice(text, braceStart, if end == -1 then FindLast(text, '}') else end))
    else if bracketStart != -1 then Some(Slice(text, bracketStart, FindLast(text, ']')))
    else None
  }

  /** From one place to the other, or on to the end when that lies before. */
  function Slice(text: string, start: nat, end: int): string
    requires start <= |text| && end < |text|
  {
    if end > start then text[start..end + 1] else text[start..]
  }

  lemma CandidateAt(text: string, start: nat, end: nat, word: string)
    requires start < end < |text| && text[start..end + 1] == word
    requires Find(text, '{') == start && (Find(text, '[') == -1 || Find(text, '[') > start)
    requires BraceEnd(text, start, 0) == end
    ensures Candidate(text) == Some(word)
  {
  }

  lemma FirstObjectFound(a: string, word: string, b: string, text: string)
    requires NoBrackets(a) && |word| >= 2 && word[0] == '{' && text == a + (word + b)
    requires BraceEnd(text, |a|, 0) == |a| + |word| - 1
    ensures Candidate(text) == Some(word)
  {
    FindPast(a, '{', word + b, text);
    FindPast(a, '[', word + b, text);
    SliceMiddle(a, word, b, text, |a| + |word|);
    CandidateAt(text, |a|, |a| + |word| - 1, word);
  }

  /** From text whose first bracket opens a braced word, exactly that word is extracted. */
  lemma CandidateIsFirstObject(a: string, inner: Word, b: string)
    requires NoBrackets(a) && Proper(inner)
    ensures Candidate(a + "{" + Show(inner) + "}" + b) == Some("{" + Show(inner) + "}")
  {
    var shown := Show(inner);
    BraceScanFindsMatch(a, inner, b);
    ObjectBetween(a, shown, b);
    FirstObjectFound(a, "{" + shown + "}", b, a + "{" + shown + "}" + b);
  }

  lemma ObjectBetween(a: string, shown: string, b: string)
    ensures a + "{" + shown + "}" + b == a + (("{" + shown + "}") + b)
  {
  }

  lemma FindPast(a: string, c: char, b: string, text: string)
    requires NoBrackets(a) && IsOpener(c) && b != [] && b[0] == '{' && text == a + b
    ensures if c == '{' then Find(text, c) == |a| else Find(text, c) == -1 || Find(text, c) > |a|
  {
    assert text[|a|] == '{' && forall j :: 0 <= j < |a| ==> text[j] == a[j] && !IsBracket(text[j]);
  }

  lemma SliceMiddle(a: string, m: string, b: string, text: string, end: nat)
    requires text == a + (m + b) && end == |a| + |m|
    ensures end <= |text| && text[|a|..end] == m
  {
  }
}

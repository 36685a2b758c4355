/**
 Overlapping word windows (`Embedder.chunk_text`, services/artifact_service/embeddings.py:46-70) and
 transcript splitting (`_split_transcript`, services/artifact_service/service.py:430-446).
 */
module Chunking {
  import opened Seqs
  import opened Text

  // ---- chunk_text ----

  /** `int(n * 0.75)`: three quarters, truncated towards zero. */
  function ThreeQuarters(n: int): int {
    if n >= 0 then 3 * n / 4 else -(3 * -n / 4)
  }

  function WordsPerChunk(chunkSize: int): (w: nat)
    ensures w >= 1
  {
    if ThreeQuarters(chunkSize) > 1 then ThreeQuarters(chunkSize) else 1
  }

  function WordsOverlap(overlap: int): nat {
    if ThreeQuarters(overlap) > 0 then ThreeQuarters(overlap) else 0
  }

  /** Window and overlap are three quarters of the sizes given, rounded down, and at least one and none. */
  lemma SizesInWords(chunkSize: int, overlap: int)
    ensures var w := WordsPerChunk(chunkSize);
            if 3 * chunkSize >= 4 then 4 * w <= 3 * chunkSize < 4 * (w + 1) else w == 1
    ensures var v := WordsOverlap(overlap);
            if overlap >= 0 then 4 * v <= 3 * overlap < 4 * (v + 1) else v == 0
  {
  }

  /** With a positive chunk size the loop ends for every text if the overlap is at least two tokens smaller. */
  lemma SmallerOverlapEnds(chunkSize: int, overlap: int)
    requires chunkSize >= 2 && overlap <= chunkSize - 2
    ensures WordsOverlap(overlap) < WordsPerChunk(chunkSize)
  {
    SizesInWords(chunkSize, overlap);
  }

  /** What `str.split()` yields. */
  predicate IsWord(w: string) {
    w != "" && forall i :: 0 <= i < |w| ==> !IsSpace(w[i])
  }

  predicate AreWords(ws: seq<string>) {
    forall i {:trigger ws[i]} :: 0 <= i < |ws| ==> IsWord(ws[i])
  }

  function JoinWords(ws: seq<string>): string {
    if ws == [] then "" else if |ws| == 1 then ws[0] else ws[0] + " " + JoinWords(ws[1..])
  }

  /** Joined words start and end with a word: the source's `strip()` finds nothing to strip. */
  lemma {:induction false} JoinedIsStripped(ws: seq<string>)
    requires ws != [] && AreWords(ws)
    ensures var j := JoinWords(ws); j != "" && !IsSpace(j[0]) && !IsSpace(j[|j| - 1]) && Strip(j) == j
  {
    assert IsWord(ws[0]);
    if |ws| > 1 {
      JoinedIsStripped(ws[1..]);
    }
  }

  predicate Stops(n: nat, w: nat, v: nat, start: int) {
    start + w - v >= n || start + w >= n
  }

  /** The condition under which the loop ends. */
  predicate WindowAdvances(n: nat, w: nat, v: nat) {
    v < w || n <= w
  }

  function Min(a: int, b: int): int {
    if a < b then a else b
  }

  /** The slice `words[start:start + w]`. */
  function Window<T>(words: seq<T>, w: nat, start: nat): seq<T>
    requires start <= |words|
  {
    words[start..Min(start + w, |words|)]
  }

  /** The windows from `start` on, as the loop takes them. */
  function Windows<T>(words: seq<T>, w: nat, v: nat, start: nat): (r: seq<seq<T>>)
    requires start < |words| && w >= 1 && (v < w || start + w >= |words|)
    ensures r != []
    decreases |words| - start
  {
    if start + w >= |words| then [Window(words, w, start)]
    else [Window(words, w, start)] + Windows(words, w, v, start + w - v)
  }

  /** The chunks that the loop appends from `start` on. */
  function ChunksFrom(words: seq<string>, w: nat, v: nat, start: nat): seq<string>
    requires start < |words| && w >= 1 && (v < w || start + w >= |words|)
    decreases |words| - start
  {
    if start + w >= |words| then [JoinWords(Window(words, w, start))]
    else [JoinWords(Window(words, w, start))] + ChunksFrom(words, w, v, start + w - v)
  }

  /** Each chunk is the join of its window. */
  lemma {:induction false} ChunksJoinWindows(words: seq<string>, w: nat, v: nat, start: nat)
    requires start < |words| && w >= 1 && (v < w || start + w >= |words|)
    ensures |ChunksFrom(words, w, v, start)| == |Windows(words, w, v, start)|
    ensures forall k :: 0 <= k < |Windows(words, w, v, start)| ==>
              ChunksFrom(words, w, v, start)[k] == JoinWords(Windows(words, w, v, start)[k])
    decreases |words| - start
  {
    if start + w < |words| {
      ChunksJoinWindows(words, w, v, start + w - v);
    }
  }

  lemma WindowIsStripped(words: seq<string>, w: nat, start: nat)
    requires start < |words| && w >= 1 && AreWords(words)
    ensures JoinWords(Window(words, w, start)) != "" && Strip(JoinWords(Window(words, w, start))) == JoinWords(Window(words, w, start))
  {
    JoinedIsStripped(Window(words, w, start));
  }

  /** One window's chunk: the source appends its stripped join, which is not blank. */
  method WindowChunk(words: seq<string>, w: nat, start: nat) returns (chunk: seq<string>)
    requires start < |words| && w >= 1 && AreWords(words)
    ensures chunk == [JoinWords(Window(words, w, start))]
  {
    WindowIsStripped(words, w, start);
    var joined := JoinWords(Window(words, w, start));
    chunk := if Strip(joined) != "" then [Strip(joined)] else [];
  }

  method ChunkText(text: string, chunkSize: int, overlap: int) returns (chunks: seq<string>)
    requires WindowAdvances(|Words(text)|, WordsPerChunk(chunkSize), WordsOverlap(overlap))
    ensures chunks ==
              if Words(text) == [] then [] else ChunksFrom(Words(text), WordsPerChunk(chunkSize), WordsOverlap(overlap), 0)
  {
    var words := Words(text);
    if words == [] {
      return [];
    }
    SplitGivesWords(text);
    chunks := ChunkWindows(words, WordsPerChunk(chunkSize), WordsOverlap(overlap));
  }

  /** `str.split()` yields words, and they hold all characters that are no whitespace. */
  lemma {:induction false} SplitGivesWords(text: string)
    ensures AreWords(Words(text))
    ensures Flatten(Words(text)) == Solid(text)
  {
    if text != "" {
      var rest := Words(text[1..]);
      SplitGivesWords(text[1..]);
      if !IsSpace(text[0]) {
        if |text| == 1 || IsSpace(text[1]) {
          assert ([[text[0]]] + rest)[1..] == rest;
        } else {
          FirstWordBegins(text[1..]);
          assert ([[text[0]] + rest[0]] + rest[1..])[1..] == rest[1..];
          ConcatAssoc([text[0]], rest[0], Flatten(rest[1..]));
        }
      }
    }
  }

  lemma {:induction false} FirstWordBegins(text: string)
    requires text != "" && !IsSpace(text[0])
    ensures Words(text) != []
  {
    if |text| > 1 && !IsSpace(text[1]) { FirstWordBegins(text[1..]); }
  }

  function Flatten(words: seq<string>): string {
    if words == [] then "" else words[0] + Flatten(words[1..])
  }

  function Solid(text: string): string {
    if text == "" then "" else (if IsSpace(text[0]) then "" else [text[0]]) + Solid(text[1..])
  }

  /** A word followed by whitespace is split off whole. */
  lemma {:induction false} WordStays(w: string, c: char, rest: string)
    requires IsWord(w) && IsSpace(c)
    ensures Words(w + ([c] + rest)) == [w] + Words(rest)
  {
    var s := w + ([c] + rest);
    if |w| == 1 {
      assert s[1..] == [c] + rest && s[1] == c && ([c] + rest)[1..] == rest;
      assert w == [w[0]];
    } else {
      WordStays(w[1..], c, rest);
      assert s[1..] == w[1..] + ([c] + rest) && s[1] == w[1];
      assert w == [w[0]] + w[1..];
    }
  }

  lemma {:induction false} LastWordStays(w: string)
    requires IsWord(w)
    ensures Words(w) == [w]
  {
    assert w == [w[0]] + w[1..];
    if |w| == 1 {
      assert w[1..] == "" && Words("") == [] && w == [w[0]];
    } else {
      LastWordStays(w[1..]);
    }
  }

  /** Joined words are split into the same words again. */
  lemma {:induction false} JoinedWordsSplit(ws: seq<string>)
    requires AreWords(ws)
    ensures Words(JoinWords(ws)) == ws
  {
    if ws != [] {
      assert IsWord(ws[0]);
      if |ws| == 1 {
        LastWordStays(ws[0]);
        assert ws == [ws[0]];
      } else {
        assert AreWords(ws[1..]);
        JoinedWordsSplit(ws[1..]);
        WordStays(ws[0], ' ', JoinWords(ws[1..]));
        ConcatAssoc(ws[0], " ", JoinWords(ws[1..]));
        assert [ws[0]] + ws[1..] == ws;
      }
    }
  }

  /** One space stands between joined words. */
  lemma {:induction false} OneSpaceBetween(ws: seq<string>, w: string)
    requires ws != []
    ensures JoinWords(ws + [w]) == JoinWords(ws) + (" " + w)
  {
    var more := ws + [w];
    assert more[0] == ws[0] && more[1..] == ws[1..] + [w];
    assert JoinWords(more) == ws[0] + " " + JoinWords(more[1..]);
    if |ws| == 1 {
      assert more[1..] == [w];
      ConcatAssoc(ws[0], " ", w);
    } else {
      OneSpaceBetween(ws[1..], w);
      ConcatAssoc(ws[0] + " ", JoinWords(ws[1..]), " " + w);
    }
  }

  /** The words of each chunk are those of its window. */
  lemma {:induction false} ChunksSplitBack(words: seq<string>, w: nat, v: nat, start: nat)
    requires start < |words| && w >= 1 && (v < w || start + w >= |words|) && AreWords(words)
    ensures |ChunksFrom(words, w, v, start)| == |Windows(words, w, v, start)|
    ensures forall k :: 0 <= k < |Windows(words, w, v, start)| ==>
              Words(ChunksFrom(words, w, v, start)[k]) == Windows(words, w, v, start)[k]
    decreases |words| - start
  {
    WindowHasWords(words, w, start);
    JoinedWordsSplit(Window(words, w, start));
    if start + w < |words| {
      ChunksSplitBack(words, w, v, start + w - v);
    }
  }

  lemma WindowHasWords(words: seq<string>, w: nat, start: nat)
    requires start <= |words| && AreWords(words)
    ensures AreWords(Window(words, w, start))
  {
  }

  /** From `start` on the loop appends what is missing in the chunks. */
  ghost predicate Remain(words: seq<string>, w: nat, v: nat, start: int, chunks: seq<string>, total: seq<string>) {
    && 0 <= start < |words| && w >= 1 && (v < w || start + w >= |words|)
    && chunks + ChunksFrom(words, w, v, start) == total
  }

  lemma NextChunk(words: seq<string>, w: nat, v: nat, start: nat, chunks: seq<string>, chunk: seq<string>, total: seq<string>)
    requires Remain(words, w, v, start, chunks, total) && chunk == [JoinWords(Window(words, w, start))]
    ensures start + w >= |words| ==> chunks + chunk == total
    ensures start + w < |words| ==> start < start + w - v && Remain(words, w, v, start + w - v, chunks + chunk, total)
  {
    if start + w < |words| { ConcatAssoc(chunks, chunk, ChunksFrom(words, w, v, start + w - v)); }
  }

  method ChunkWindows(words: seq<string>, w: nat, v: nat) returns (chunks: seq<string>)
    requires words != [] && w >= 1 && WindowAdvances(|words|, w, v)
    requires AreWords(words)
    ensures chunks == ChunksFrom(words, w, v, 0)
  {
    ghost var total := ChunksFrom(words, w, v, 0);
    chunks := [];
    var start := 0;
    assert [] + total == total;
    while start < |words|
      invariant Remain(words, w, v, start, chunks, total)
      decreases |words| - start
    {
      var end := start + w;
      var chunk := WindowChunk(words, w, start);
      NextChunk(words, w, v, start, chunks, chunk, total);
      chunks := chunks + chunk;
      start := end - v;
      if start >= |words| || end >= |words| {
        break;
      }
    }
  }

  /** Window `k` starts at `k * (w - v)`. */
  lemma {:induction false} WindowAt<T>(words: seq<T>, w: nat, v: nat, start: nat, k: nat)
    requires start < |words| && v < w && k < |Windows(words, w, v, start)|
    ensures 0 <= k * (w - v) && start + k * (w - v) < |words|
    ensures Windows(words, w, v, start)[k] == Window(words, w, start + k * (w - v))
    ensures k < |Windows(words, w, v, start)| - 1 <==> start + k * (w - v) + w < |words|
    decreases k
  {
    if k > 0 {
      WindowAt(words, w, v, start + w - v, k - 1);
      assert (k - 1) * (w - v) + (w - v) == k * (w - v);
    } else if start + w < |words| {
      assert Windows(words, w, v, start + w - v) != [];
    }
  }

  lemma SlicesOverlap<T>(words: seq<T>, w: nat, v: nat, s: nat)
    requires v < w && s + w < |words|
    ensures var a, b := Window(words, w, s), Window(words, w, s + w - v);
            |a| == w && v < |b| && a[w - v..] == b[..v]
  {
    var end := Min(s + w - v + w, |words|);
    assert Window(words, w, s) == words[s..s + w];
    assert Window(words, w, s + w - v) == words[s + w - v..end];
    assert words[s..s + w][w - v..] == words[s + w - v..s + w];
    assert words[s + w - v..end][..v] == words[s + w - v..s + w];
  }

  /** Neighbouring windows share exactly `v` words: the last of one are the first of the next. */
  lemma WindowsOverlap<T>(words: seq<T>, w: nat, v: nat, k: nat)
    requires words != [] && v < w && k + 1 < |Windows(words, w, v, 0)|
    ensures var a, b := Windows(words, w, v, 0)[k], Windows(words, w, v, 0)[k + 1];
            |a| == w && v < |b| && a[w - v..] == b[..v]
  {
    WindowAt(words, w, v, 0, k);
    WindowAt(words, w, v, 0, k + 1);
    var s := k * (w - v);
    assert (k + 1) * (w - v) == s + (w - v);
    SlicesOverlap(words, w, v, s);
  }

  function DropFirst<T>(ws: seq<T>, v: nat): seq<T> {
    if v <= |ws| then ws[v..] else []
  }

  /** The windows one after the other, each without its first `v` words. */
  function GlueLater<T>(windows: seq<seq<T>>, v: nat): seq<T> {
    if windows == [] then [] else DropFirst(windows[0], v) + GlueLater(windows[1..], v)
  }

  /** The first window whole, of every later one what follows the overlap. */
  function Glue<T>(windows: seq<seq<T>>, v: nat): seq<T> {
    if windows == [] then [] else windows[0] + GlueLater(windows[1..], v)
  }

  lemma GlueLaterCons<T>(first: seq<T>, rest: seq<seq<T>>, v: nat)
    requires v <= |first|
    ensures GlueLater([first] + rest, v) == first[v..] + GlueLater(rest, v)
    ensures Glue([first] + rest, v) == first + GlueLater(rest, v)
    ensures GlueLater<T>([], v) == []
  {
    assert ([first] + rest)[1..] == rest;
  }

  lemma LastWindow<T>(words: seq<T>, w: nat, v: nat, start: nat)
    requires v < w && start + v < |words| <= start + w
    ensures GlueLater(Windows(words, w, v, start), v) == words[start + v..]
  {
    var first := Window(words, w, start);
    GlueLaterCons(first, [], v);
    assert [first] + [] == [first];
    assert first[v..] == words[start + v..];
  }

  lemma GlueOntoRest<T>(words: seq<T>, a: nat, b: nat, first: seq<T>, rest: seq<seq<T>>, v: nat)
    requires a <= b <= |words| && v <= |first| && first[v..] == words[a..b]
    requires GlueLater(rest, v) == words[b..]
    ensures GlueLater([first] + rest, v) == words[a..]
  {
    GlueLaterCons(first, rest, v);
    CutAtIndex(words, a, b);
  }

  lemma MiddleWindow<T>(words: seq<T>, w: nat, v: nat, start: nat)
    requires v < w && start + w < |words|
    ensures Windows(words, w, v, start) == [Window(words, w, start)] + Windows(words, w, v, start + w - v)
    ensures |Window(words, w, start)| == w && Window(words, w, start)[v..] == words[start + v..start + w]
  {
  }

  lemma GlueStep<T>(words: seq<T>, w: nat, v: nat, start: nat, rest: seq<seq<T>>)
    requires v < w && start + w < |words| && rest == Windows(words, w, v, start + w - v)
    requires GlueLater(rest, v) == words[start + w..]
    ensures GlueLater(Windows(words, w, v, start), v) == words[start + v..]
  {
    MiddleWindow(words, w, v, start);
    GlueOntoRest(words, start + v, start + w, Window(words, w, start), rest, v);
  }

  lemma {:induction false} GlueLaterWindows<T>(words: seq<T>, w: nat, v: nat, start: nat)
    requires v < w && start + v < |words|
    ensures GlueLater(Windows(words, w, v, start), v) == words[start + v..]
    decreases |words| - start
  {
    if start + w >= |words| {
      LastWindow(words, w, v, start);
    } else {
      GlueLaterWindows(words, w, v, start + w - v);
      GlueStep(words, w, v, start, Windows(words, w, v, start + w - v));
    }
  }

  lemma GlueWhole<T>(words: seq<T>, b: nat, first: seq<T>, rest: seq<seq<T>>, v: nat)
    requires b <= |words| && v <= |first| && first == words[..b]
    requires GlueLater(rest, v) == words[b..]
    ensures Glue([first] + rest, v) == words
  {
    GlueLaterCons(first, rest, v);
    assert words == words[..b] + words[b..];
  }

  lemma LaterWindows<T>(words: seq<T>, w: nat, v: nat)
    requires v < w < |words|
    ensures GlueLater(Windows(words, w, v, w - v), v) == words[w..]
  {
    GlueLaterWindows(words, w, v, w - v);
  }

  lemma FirstWindow<T>(words: seq<T>, w: nat, v: nat)
    requires v < w < |words|
    ensures Windows(words, w, v, 0) == [words[..w]] + Windows(words, w, v, w - v)
  {
    assert Window(words, w, 0) == words[..w];
  }

  /** Nothing is lost or repeated beyond the overlap: dropping it rebuilds the word list. */
  lemma GlueRebuilds<T>(words: seq<T>, w: nat, v: nat)
    requires words != [] && v < w
    ensures Glue(Windows(words, w, v, 0), v) == words
  {
    if w >= |words| {
      assert Window(words, w, 0) == words;
    } else {
      FirstWindow(words, w, v);
      LaterWindows(words, w, v);
      GlueWhole(words, w, words[..w], Windows(words, w, v, w - v), v);
    }
  }

  function CeilDiv(a: int, b: int): int
    requires b > 0
  {
    (a + b - 1) / b
  }

  /** One window if the words fit, else one more for each `w - v` words beyond the first window, rounded up. */
  lemma {:induction false} WindowCount<T>(words: seq<T>, w: nat, v: nat, start: nat)
    requires start < |words| && v < w
    ensures |Windows(words, w, v, start)| ==
              if |words| - start <= w then 1 else 1 + CeilDiv(|words| - start - w, w - v)
    decreases |words| - start
  {
    if start + w < |words| {
      var d, rest := w - v, |words| - start - w;
      WindowCount(words, w, v, start + d);
      if rest <= d {
        CeilOne(rest, d);
      } else {
        CeilStep(rest, d);
      }
    }
  }

  lemma CeilOne(a: int, d: int)
    requires 0 < a <= d
    ensures CeilDiv(a, d) == 1
  {
    assert (a - 1 + d) / d == 1 + (a - 1) / d by { assert (a - 1) / d == 0; DivShift(a - 1, d); }
  }

  lemma CeilStep(a: int, d: int)
    requires d > 0
    ensures CeilDiv(a, d) == 1 + CeilDiv(a - d, d)
  {
    DivShift(a - 1, d);
  }

  lemma DivShift(a: int, d: int)
    requires d > 0
    ensures (a + d) / d == 1 + a / d
  {
    var q, r := a / d, a % d;
    assert a + d == (q + 1) * d + r;
    DivUnique(a + d, d, q + 1, r);
  }

  lemma DivUnique(a: int, d: int, q: int, r: int)
    requires d > 0 && 0 <= r < d && a == q * d + r
    ensures a / d == q
  {
    var x := q - a / d;
    assert a == (a / d) * d + a % d;
    assert x * d == a % d - r;
    assert x >= 1 ==> x * d >= d;
    assert x <= -1 ==> x * d <= -d;
  }

  /** Where the loop stands at its `k`th iteration. */
  function StartOf(w: nat, v: nat, k: nat): int {
    k * (w - v)
  }

  /** The loop leaves at some iteration exactly when the overlap is smaller than the window, or one window suffices. */
  lemma LoopEndsIff(n: nat, w: nat, v: nat)
    requires n > 0 && w >= 1
    ensures (exists k: nat :: Stops(n, w, v, StartOf(w, v, k))) <==> WindowAdvances(n, w, v)
  {
    if n <= w {
      assert StartOf(w, v, 0) == 0;
      assert Stops(n, w, v, StartOf(w, v, 0));
    } else if v < w {
      var k := n;
      assert k * (w - v) >= k by { assert k * (w - v) - k == k * (w - v - 1); }
      assert Stops(n, w, v, StartOf(w, v, k));
    } else {
      forall k: nat ensures !Stops(n, w, v, StartOf(w, v, k)) {
        assert k * (w - v) <= 0;
      }
    }
  }

  // ---- _split_transcript ----

  /** `text.rfind(sep, 0, hi)` for `hi` within the text. */
  function RFind(text: string, sep: string, hi: nat): (i: int)
    requires hi <= |text| && sep != ""
    ensures i >= 0 ==> i + |sep| <= hi && OccursAt(text, sep, i)
    ensures i >= -1 && forall j :: i < j <= hi - |sep| ==> !OccursAt(text, sep, j)
    decreases hi
  {
    if hi < |sep| then -1
    else if text[hi - |sep|..hi] == sep then hi - |sep|
    else RFind(text, sep, hi - 1)
  }

  const SEPARATORS := ["\n", ". ", " "]

  /** The separators from the `k`th on are tried in order; one found beyond the half of `max` decides. */
  function CutFrom(text: string, max: nat, k: nat): (cut: nat)
    requires max < |text| && k <= |SEPARATORS|
    ensures cut <= max <= 2 * cut && (max > 0 ==> max < 2 * cut)
    decreases |SEPARATORS| - k
  {
    if k == |SEPARATORS| then max
    else
      var i := RFind(text, SEPARATORS[k], max);
      if 2 * i > max then i + |SEPARATORS[k]| else CutFrom(text, max, k + 1)
  }

  function CutAt(text: string, max: nat): (cut: nat)
    requires max < |text|
    ensures cut <= max <= 2 * cut && (max > 0 ==> max < 2 * cut)
  {
    CutFrom(text, max, 0)
  }

  /** The inner loop over the separators. */
  method FindCut(text: string, max: nat) returns (cut: nat)
    requires max < |text|
    ensures cut == CutAt(text, max)
  {
    for k := 0 to |SEPARATORS|
      invariant CutAt(text, max) == CutFrom(text, max, k)
    {
      var idx := RFind(text, SEPARATORS[k], max);
      if 2 * idx > max {
        return idx + |SEPARATORS[k]|;
      }
    }
    return max;
  }

  /** The chunks, as the text's first characters decide them one after the other. */
  function Chunks(text: string, max: nat): seq<string>
    requires max >= 1
    decreases |text|
  {
    if text == "" then []
    else if |text| <= max then [text]
    else [text[..CutAt(text, max)]] + Chunks(text[CutAt(text, max)..], max)
  }

  method SplitTranscript(text: string, maxChars: int) returns (chunks: seq<string>)
    requires text == "" || maxChars >= 1
    ensures chunks == if text == "" then [] else Chunks(text, maxChars)
  {
    chunks := [];
    var rest := text;
    while rest != ""
      invariant text != "" ==> chunks + Chunks(rest, maxChars) == Chunks(text, maxChars)
      invariant text == "" ==> rest == "" && chunks == []
      decreases |rest|
    {
      if |rest| <= maxChars {
        chunks := chunks + [rest];
        break;
      }
      var cut := FindCut(rest, maxChars);
      chunks := chunks + [rest[..cut]];
      rest := rest[cut..];
    }
  }

  function Concat(chunks: seq<string>): string {
    if chunks == [] then "" else chunks[0] + Concat(chunks[1..])
  }

  lemma {:induction false} ChunksConcat(text: string, max: nat)
    requires max >= 1
    ensures Concat(Chunks(text, max)) == text
    decreases |text|
  {
    if |text| > max {
      var cut := CutAt(text, max);
      ChunksConcat(text[cut..], max);
      assert Chunks(text, max)[1..] == Chunks(text[cut..], max);
      assert text == text[..cut] + text[cut..];
    } else if text != "" {
      assert [text][1..] == [];
    }
  }

  lemma {:induction false} ChunksSizes(text: string, max: nat)
    requires max >= 1
    ensures forall k :: 0 <= k < |Chunks(text, max)| ==> 1 <= |Chunks(text, max)[k]| <= max
    ensures forall k :: 0 <= k < |Chunks(text, max)| - 1 ==> 2 * |Chunks(text, max)[k]| > max
    ensures text != "" ==> Chunks(text, max) != []
    decreases |text|
  {
    if |text| > max {
      ChunksSizes(text[CutAt(text, max)..], max);
    }
  }

  lemma CountStep(n: nat, max: nat, cut: nat, rest: nat)
    requires (n - 1) * (max + 1) < 2 * rest && max < 2 * cut
    ensures n * (max + 1) < 2 * (cut + rest)
  {
    assert n * (max + 1) == (n - 1) * (max + 1) + (max + 1);
  }

  lemma {:induction false} ChunksCount(text: string, max: nat)
    requires max >= 1 && text != ""
    ensures (|Chunks(text, max)| - 1) * (max + 1) < 2 * |text|
    decreases |text|
  {
    if |text| > max {
      var cut := CutAt(text, max);
      var n := |Chunks(text[cut..], max)|;
      ChunksCount(text[cut..], max);
      assert |Chunks(text, max)| == 1 + n && |text[cut..]| == |text| - cut;
      CountStep(n, max, cut, |text| - cut);
    } else {
      assert |Chunks(text, max)| == 1;
    }
  }

  /**
   The chunks concatenate to the text; none is empty or too long; all but the last are longer than
   half the limit, so there are at most one more of them than twice the length over the limit.
   */
  lemma ChunksCover(text: string, max: nat)
    requires max >= 1
    ensures var chunks := Chunks(text, max);
            && Concat(chunks) == text
            && (forall k :: 0 <= k < |chunks| ==> 1 <= |chunks[k]| <= max)
            && (forall k :: 0 <= k < |chunks| - 1 ==> 2 * |chunks[k]| > max)
            && (text != "" ==> (|chunks| - 1) * (max + 1) < 2 * |text|)
  {
    ChunksConcat(text, max);
    ChunksSizes(text, max);
    if text != "" { ChunksCount(text, max); }
  }

  /** An occurrence of `sep` in the first `max` characters, beyond the half. */
  predicate LateBreak(text: string, sep: string, max: nat, i: int) {
    OccursAt(text, sep, i) && 2 * i > max && i + |sep| <= max
  }

  predicate HasLateBreak(text: string, sep: string, max: nat) {
    exists i :: 0 <= i <= max && LateBreak(text, sep, max, i)
  }

  predicate IsLastBreak(text: string, sep: string, max: nat, i: int) {
    LateBreak(text, sep, max, i) && forall j :: i < j <= max ==> !LateBreak(text, sep, max, j)
  }

  lemma LateIffRFind(text: string, sep: string, max: nat)
    requires max <= |text| && sep != ""
    ensures HasLateBreak(text, sep, max) <==> 2 * RFind(text, sep, max) > max
    ensures 2 * RFind(text, sep, max) > max ==> IsLastBreak(text, sep, max, RFind(text, sep, max))
  {
    var r := RFind(text, sep, max);
    forall j | r < j <= max ensures !LateBreak(text, sep, max, j) {
      if j <= max - |sep| { assert !OccursAt(text, sep, j); }
    }
    if 2 * r > max { assert LateBreak(text, sep, max, r); }
  }

  /**
   A chunk that is not the last ends after the last late newline, else sentence end, else blank; else
   it is full: each separator in turn decides the cut exactly if it has a late break.
   */
  lemma CutIsBest(text: string, max: nat, k: nat)
    requires 1 <= max < |text| && k <= |SEPARATORS|
    ensures if k == |SEPARATORS| then CutFrom(text, max, k) == max
            else if HasLateBreak(text, SEPARATORS[k], max)
            then IsLastBreak(text, SEPARATORS[k], max, CutFrom(text, max, k) - |SEPARATORS[k]|)
            else CutFrom(text, max, k) == CutFrom(text, max, k + 1)
    ensures CutAt(text, max) == CutFrom(text, max, 0)
  {
    if k < |SEPARATORS| {
      LateIffRFind(text, SEPARATORS[k], max);
    }
  }

  // ---- Any limit ----

  /** Where a Python slice bound stands in a text of length `n`. */
  function Bound(n: nat, i: int): (b: nat)
    ensures b <= n
  {
    if i >= n then n else if i >= 0 then i else if n + i >= 0 then n + i else 0
  }

  /** The cut for any limit; a negative one counts from the end, in `rfind` and in the slices. */
  function AnyCutFrom(text: string, max: int, k: nat): int
    requires k <= |SEPARATORS|
    decreases |SEPARATORS| - k
  {
    if k == |SEPARATORS| then max
    else
      var i := RFind(text, SEPARATORS[k], Bound(|text|, max));
      if 2 * i > max then i + |SEPARATORS[k]| else AnyCutFrom(text, max, k + 1)
  }

  /** What an iteration leaves of the text. */
  function RestOf(text: string, max: int): string {
    text[Bound(|text|, AnyCutFrom(text, max, 0))..]
  }

  /** The loop is over after at most `k` more iterations. */
  predicate EndsWithin(text: string, max: int, k: nat) {
    text == "" || |text| <= max || (k > 0 && EndsWithin(RestOf(text, max), max, k - 1))
  }

  lemma SameCut(text: string, max: nat, k: nat)
    requires max < |text| && k <= |SEPARATORS|
    ensures AnyCutFrom(text, max, k) == CutFrom(text, max, k)
    decreases |SEPARATORS| - k
  {
    if k < |SEPARATORS| { SameCut(text, max, k + 1); }
  }

  lemma {:induction false} PositiveEnds(text: string, max: nat)
    requires max >= 1
    ensures EndsWithin(text, max, |text|)
    decreases |text|
  {
    if |text| > max {
      SameCut(text, max, 0);
      var rest := RestOf(text, max);
      PositiveEnds(rest, max);
      LongerEnds(rest, max, |rest|, |text| - 1);
    }
  }

  lemma {:induction false} LongerEnds(text: string, max: int, k: nat, n: nat)
    requires EndsWithin(text, max, k) && k <= n
    ensures EndsWithin(text, max, n)
  {
    if text != "" && |text| > max { LongerEnds(RestOf(text, max), max, k - 1, n - 1); }
  }

  /** A limit below one never cuts off the last character. */
  lemma LastCharacterStays(text: string, max: int, k: nat)
    requires text != "" && max <= 0 && k <= |SEPARATORS| && (k > 0 ==> max >= -2)
    ensures Bound(|text|, AnyCutFrom(text, max, k)) < |text|
    decreases |SEPARATORS| - k
  {
    if k < |SEPARATORS| {
      var hi := Bound(|text|, max);
      var i := RFind(text, SEPARATORS[k], hi);
      if 2 * i > max {
        assert |SEPARATORS[0]| == 1;
        assert i >= 0 ==> i + |SEPARATORS[k]| <= hi;
        assert i == -1 ==> k == 0;
      } else {
        LastCharacterStays(text, max, k + 1);
      }
    }
  }

  lemma {:induction false} NonPositiveNeverEnds(text: string, max: int, k: nat)
    requires text != "" && max <= 0
    ensures !EndsWithin(text, max, k)
  {
    if k > 0 {
      LastCharacterStays(text, max, 0);
      NonPositiveNeverEnds(RestOf(text, max), max, k - 1);
    }
  }

  ghost predicate LoopEnds(text: string, max: int) {
    exists k: nat :: EndsWithin(text, max, k)
  }

  /** The loop comes to an end exactly for the empty text or a positive limit. */
  lemma SplitEndsIff(text: string, max: int)
    ensures LoopEnds(text, max) <==> text == "" || max >= 1
  {
    if text != "" && max >= 1 {
      PositiveEnds(text, max);
    } else if text == "" {
      var k: nat := 0;
      assert EndsWithin(text, max, k);
    } else {
      forall k: nat ensures !EndsWithin(text, max, k) { NonPositiveNeverEnds(text, max, k); }
    }
  }
}

/**
 The word splitter of the word-frequency counter. ScanWords sees whatever part of the input is in
 the buffer; the words of the whole input are defined without it, on the decoded runes. Which
 runes are letters, numbers or marks is a parameter.
 */
module WordScanner {
  import opened Basics
  import opened Utf8

  type Letters = int -> bool

  predicate Joiner(r: int) {
    r == 0x27 || r == 0x2019 || r == 0x2D
  }

  // ---------- the words of an input ----------

  datatype Glyph = Glyph(rune: int, bytes: seq<byte>)

  function Glyphs(data: seq<byte>): seq<Glyph>
    decreases |data|
  {
    if data == [] then [] else
      var d := DecodeRune(data);
      [Glyph(d.rune, data[..d.size])] + Glyphs(data[d.size..])
  }

  function Text(gs: seq<Glyph>): seq<byte> {
    if gs == [] then [] else gs[0].bytes + Text(gs[1..])
  }

  /** A letter, or a joiner between two letters. */
  predicate InWord(letter: Letters, gs: seq<Glyph>, i: nat)
    requires i < |gs|
  {
    || letter(gs[i].rune)
    || (Joiner(gs[i].rune) && 0 < i && i + 1 < |gs| && letter(gs[i - 1].rune) && letter(gs[i + 1].rune))
  }

  function RunEnd(letter: Letters, gs: seq<Glyph>, i: nat): (j: nat)
    requires i <= |gs|
    ensures i <= j <= |gs|
    ensures forall k :: i <= k < j ==> InWord(letter, gs, k)
    ensures j < |gs| ==> !InWord(letter, gs, j)
    decreases |gs| - i
  {
    if i == |gs| || !InWord(letter, gs, i) then i else RunEnd(letter, gs, i + 1)
  }

  /** The maximal runs of positions that are in words, from position i on. */
  function Spans(letter: Letters, gs: seq<Glyph>, i: nat): seq<(nat, nat)>
    requires i <= |gs|
    decreases |gs| - i
  {
    if i == |gs| then []
    else if !InWord(letter, gs, i) then Spans(letter, gs, i + 1)
    else [(i, RunEnd(letter, gs, i))] + Spans(letter, gs, RunEnd(letter, gs, i))
  }

  function Slices(gs: seq<Glyph>, spans: seq<(nat, nat)>): seq<seq<byte>>
    requires forall k :: 0 <= k < |spans| ==> spans[k].0 <= spans[k].1 <= |gs|
  {
    seq(|spans|, k requires 0 <= k < |spans| => Text(gs[spans[k].0..spans[k].1]))
  }

  /** The words of glyphs `gs`, from position i on. */
  function WordsFrom(letter: Letters, gs: seq<Glyph>, i: nat): seq<seq<byte>>
    requires i <= |gs|
    decreases |gs| - i
  {
    if i == |gs| then []
    else if !InWord(letter, gs, i) then WordsFrom(letter, gs, i + 1)
    else [Text(gs[i..RunEnd(letter, gs, i)])] + WordsFrom(letter, gs, RunEnd(letter, gs, i))
  }

  function Words(letter: Letters, data: seq<byte>): seq<seq<byte>> {
    WordsFrom(letter, Glyphs(data), 0)
  }

  ghost predicate MaximalRun(letter: Letters, gs: seq<Glyph>, from: nat, span: (nat, nat)) {
    && from <= span.0 < span.1 <= |gs|
    && (forall k :: span.0 <= k < span.1 ==> InWord(letter, gs, k))
    && (span.0 > from ==> !InWord(letter, gs, span.0 - 1))
    && (span.1 < |gs| ==> !InWord(letter, gs, span.1))
  }

  ghost predicate Apart(spans: seq<(nat, nat)>) {
    forall a, b :: 0 <= a < b < |spans| ==> spans[a].1 < spans[b].0
  }

  /** The spans are all the maximal runs, in order. */
  lemma {:induction false} SpansAreMaximalRuns(letter: Letters, gs: seq<Glyph>, i: nat)
    requires i <= |gs|
    ensures forall span :: span in Spans(letter, gs, i) <==> MaximalRun(letter, gs, i, span)
    ensures Apart(Spans(letter, gs, i))
    decreases |gs| - i
  {
    if i < |gs| {
      if !InWord(letter, gs, i) {
        SpansAreMaximalRuns(letter, gs, i + 1);
        assert Spans(letter, gs, i) == Spans(letter, gs, i + 1);
        forall span ensures MaximalRun(letter, gs, i, span) <==> MaximalRun(letter, gs, i + 1, span) {
        }
      } else {
        var j := RunEnd(letter, gs, i);
        SpansAreMaximalRuns(letter, gs, j);
        var spans := Spans(letter, gs, i);
        forall span ensures span in spans <==> MaximalRun(letter, gs, i, span) {
          LaterRuns(letter, gs, i, j, span);
        }
        forall a, b | 0 <= a < b < |spans| ensures spans[a].1 < spans[b].0 {
          assert spans[b] == Spans(letter, gs, j)[b - 1];
          assert spans[b] in Spans(letter, gs, j);
          assert a > 0 ==> spans[a] == Spans(letter, gs, j)[a - 1];
        }
      }
    }
  }

  lemma LaterRuns(letter: Letters, gs: seq<Glyph>, i: nat, j: nat, span: (nat, nat))
    requires i < |gs| && InWord(letter, gs, i) && j == RunEnd(letter, gs, i)
    ensures MaximalRun(letter, gs, i, span) <==> span == (i, j) || MaximalRun(letter, gs, j, span)
    ensures MaximalRun(letter, gs, j, span) ==> j < span.0
  {
    if MaximalRun(letter, gs, i, span) && span.0 > i {
      assert !InWord(letter, gs, span.0 - 1);
    }
  }

  lemma {:induction false} WordsAreSlices(letter: Letters, gs: seq<Glyph>, i: nat)
    requires i <= |gs|
    ensures
      var spans := Spans(letter, gs, i);
      && (forall k :: 0 <= k < |spans| ==> spans[k].0 <= spans[k].1 <= |gs|)
      && WordsFrom(letter, gs, i) == Slices(gs, spans)
    decreases |gs| - i
  {
    hide InWord, Text, RunEnd;
    if i < |gs| {
      if !InWord(letter, gs, i) {
        WordsAreSlices(letter, gs, i + 1);
      } else {
        var j := RunEnd(letter, gs, i);
        WordsAreSlices(letter, gs, j);
        var spans := Spans(letter, gs, i);
        assert spans == [(i, j)] + Spans(letter, gs, j);
        assert Slices(gs, spans) == [Text(gs[i..j])] + Slices(gs, Spans(letter, gs, j));
      }
    }
  }

  /** The specification, declaratively: the words of an input are the texts of the maximal runs of
      letters and inner joiners, each of them once, in order. */
  lemma WordsAreMaximalRuns(letter: Letters, data: seq<byte>) returns (spans: seq<(nat, nat)>)
    ensures
      var gs := Glyphs(data);
      && |spans| == |Words(letter, data)|
      && (forall span :: span in spans <==> MaximalRun(letter, gs, 0, span))
      && Apart(spans)
      && (forall k :: 0 <= k < |spans| ==>
            spans[k].0 < spans[k].1 <= |gs| && Words(letter, data)[k] == Text(gs[spans[k].0..spans[k].1]))
  {
    var gs := Glyphs(data);
    spans := Spans(letter, gs, 0);
    SpansAreMaximalRuns(letter, gs, 0);
    WordsAreSlices(letter, gs, 0);
    forall k | 0 <= k < |spans| ensures spans[k].0 < spans[k].1 <= |gs| {
      assert spans[k] in spans;
    }
  }

  // ---------- cutting the input after a separator ----------

  lemma {:induction false} CutAfterSeparator(letter: Letters, gs: seq<Glyph>, n: nat, i: nat)
    requires 0 < n <= i + n <= |gs| && !letter(gs[n - 1].rune)
    ensures i + n < |gs| ==> InWord(letter, gs, i + n) == InWord(letter, gs[n..], i)
    ensures RunEnd(letter, gs, i + n) == RunEnd(letter, gs[n..], i) + n
    decreases |gs| - i
  {
    if i + n < |gs| {
      assert gs[n..][i] == gs[i + n];
      if InWord(letter, gs, i + n) {
        CutAfterSeparator(letter, gs, n, i + 1);
      }
    }
  }

  lemma {:induction false} WordsAfterSeparator(letter: Letters, gs: seq<Glyph>, n: nat, i: nat)
    requires 0 < n <= i + n <= |gs| && !letter(gs[n - 1].rune)
    ensures WordsFrom(letter, gs, i + n) == WordsFrom(letter, gs[n..], i)
    decreases |gs| - i
  {
    CutAfterSeparator(letter, gs, n, i);
    if i + n < |gs| {
      if InWord(letter, gs, i + n) {
        var j := RunEnd(letter, gs[n..], i);
        WordsAfterSeparator(letter, gs, n, j);
        assert gs[n..][i..j] == gs[i + n..j + n];
      } else {
        WordsAfterSeparator(letter, gs, n, i + 1);
      }
    }
  }

  lemma SkipSeparator(letter: Letters, data: seq<byte>)
    requires data != [] && !letter(DecodeRune(data).rune)
    ensures Words(letter, data) == Words(letter, data[DecodeRune(data).size..])
  {
    hide DecodeRune, FullRune;
    var gs := Glyphs(data);
    WordsAfterSeparator(letter, gs, 1, 0);
    assert gs[1..] == Glyphs(data[DecodeRune(data).size..]);
  }

  lemma {:induction false} TextOf(a: seq<Glyph>, b: seq<Glyph>)
    ensures Text(a + b) == Text(a) + Text(b)
  {
    if a == [] {
      assert a + b == b;
    } else {
      TextOf(a[1..], b);
      assert (a + b)[1..] == a[1..] + b && (a + b)[0] == a[0];
      assert a[0].bytes + (Text(a[1..]) + Text(b)) == a[0].bytes + Text(a[1..]) + Text(b);
    }
  }

  /** The glyphs of an input are all of it, malformed bytes included. */
  lemma {:induction false} TextOfGlyphs(data: seq<byte>)
    ensures Text(Glyphs(data)) == data
    decreases |data|
  {
    hide DecodeRune;
    if data != [] {
      var n := DecodeRune(data).size;
      TextOfGlyphs(data[n..]);
      assert data == data[..n] + data[n..];
      assert Glyphs(data)[1..] == Glyphs(data[n..]);
    }
  }

  // ---------- ScanWords ----------

  datatype Split = Split(advance: nat, token: Option<seq<byte>>)

  /** Whether the rune at the front of `p` is known. */
  predicate Known(p: seq<byte>, atEOF: bool) {
    atEOF || FullRune(p)
  }

  /** The first loop: the position of the first letter, or of a rune that is not known yet. */
  function SkipTo(letter: Letters, data: seq<byte>, atEOF: bool, start: nat): (r: nat)
    requires start <= |data|
    ensures start <= r <= |data|
    decreases |data| - start
  {
    if start == |data| || !Known(data[start..], atEOF) || letter(DecodeRune(data[start..]).rune) then start
    else SkipTo(letter, data, atEOF, start + DecodeRune(data[start..]).size)
  }

  datatype Scan = Wait | End(at: nat, next: nat) | RanOut

  /** The second loop: where the word ends and where the rest starts. */
  function WordEnd(letter: Letters, data: seq<byte>, atEOF: bool, i: nat): (r: Scan)
    requires i <= |data|
    ensures r.End? ==> i <= r.at < r.next <= |data|
    decreases |data| - i
  {
    if i == |data| then RanOut
    else if !Known(data[i..], atEOF) then Wait
    else
      var d := DecodeRune(data[i..]);
      if letter(d.rune) then WordEnd(letter, data, atEOF, i + d.size)
      else if !Joiner(d.rune) then End(i, i + d.size)
      else
        var rest := data[i + d.size..];
        if !Known(rest, atEOF) then Wait
        else if letter(DecodeRune(rest).rune) then WordEnd(letter, data, atEOF, i + d.size)
        else End(i, i + d.size)
  }

  function ScanResult(letter: Letters, data: seq<byte>, atEOF: bool): Split {
    var start := SkipTo(letter, data, atEOF, 0);
    match WordEnd(letter, data, atEOF, start)
    case Wait => Split(start, None)
    case End(at, next) => Split(next, Some(data[start..at]))
    case RanOut => if atEOF && start < |data| then Split(|data|, Some(data[start..])) else Split(start, None)
  }

  method FindStart(letter: Letters, data: seq<byte>, atEOF: bool) returns (start: nat)
    ensures start == SkipTo(letter, data, atEOF, 0)
  {
    hide DecodeRune, FullRune;
    start := 0;
    while start < |data|
      invariant start <= |data| && SkipTo(letter, data, atEOF, start) == SkipTo(letter, data, atEOF, 0)
    {
      if !atEOF && !FullRune(data[start..]) {
        return;
      }
      var d := DecodeRune(data[start..]);
      if letter(d.rune) {
        break;
      }
      start := start + d.size;
    }
  }

  method FindEnd(letter: Letters, data: seq<byte>, atEOF: bool, start: nat) returns (r: Scan)
    requires start <= |data|
    ensures r == WordEnd(letter, data, atEOF, start)
  {
    hide DecodeRune, FullRune;
    var i := start;
    while i < |data|
      invariant start <= i <= |data| && WordEnd(letter, data, atEOF, i) == WordEnd(letter, data, atEOF, start)
    {
      if !atEOF && !FullRune(data[i..]) {
        return Wait;
      }
      var d := DecodeRune(data[i..]);
      if !letter(d.rune) {
        if !Joiner(d.rune) {
          return End(i, i + d.size);
        }
        var rest := data[i + d.size..];
        if !atEOF && !FullRune(rest) {
          return Wait;
        }
        if !letter(DecodeRune(rest).rune) {
          return End(i, i + d.size);
        }
      }
      i := i + d.size;
    }
    return RanOut;
  }

  /** The split function: its two loops are FindStart and FindEnd. */
  method ScanWords(letter: Letters, data: seq<byte>, atEOF: bool) returns (advance: nat, token: Option<seq<byte>>)
    ensures Split(advance, token) == ScanResult(letter, data, atEOF)
  {
    var start := FindStart(letter, data, atEOF);
    var end := FindEnd(letter, data, atEOF, start);
    match end
    case Wait => return start, None;
    case End(at, next) => return next, Some(data[start..at]);
    case RanOut =>
      if atEOF && start < |data| {
        return |data|, Some(data[start..]);
      }
      return start, None;
  }

  // ---------- one call is right whatever the buffer holds ----------

  lemma KnownDecodes(data: seq<byte>, more: seq<byte>, atEOF: bool, i: nat)
    requires i <= |data| && Known(data[i..], atEOF) && (atEOF ==> more == [])
    ensures DecodeRune((data + more)[i..]) == DecodeRune(data[i..])
  {
    assert (data + more)[i..] == data[i..] + more;
    if atEOF {
      assert data[i..] + more == data[i..];
    } else {
      FullRuneIsStable(data[i..], more);
    }
  }

  lemma Rest(d: seq<byte>, i: nat, n: nat)
    requires i + n <= |d|
    ensures d[i..][n..] == d[i + n..] && d[i..][..n] == d[i..i + n]
  {
  }

  lemma {:induction false} SkipIsSound(letter: Letters, data: seq<byte>, more: seq<byte>, atEOF: bool, start: nat)
    requires start <= |data| && (atEOF ==> more == [])
    ensures
      var r := SkipTo(letter, data, atEOF, start);
      Words(letter, (data + more)[start..]) == Words(letter, (data + more)[r..])
    decreases |data| - start
  {
    hide DecodeRune, FullRune, Words;
    if !(start == |data| || !Known(data[start..], atEOF) || letter(DecodeRune(data[start..]).rune)) {
      var d := DecodeRune(data[start..]);
      KnownDecodes(data, more, atEOF, start);
      SkipSeparator(letter, (data + more)[start..]);
      Rest(data + more, start, d.size);
      SkipIsSound(letter, data, more, atEOF, start + d.size);
    }
  }

  /** The first loop stops at a letter unless it has to wait or ran out. */
  lemma {:induction false} SkipStops(letter: Letters, data: seq<byte>, atEOF: bool, start: nat)
    requires start <= |data|
    ensures
      var r := SkipTo(letter, data, atEOF, start);
      r == |data| || !Known(data[r..], atEOF) || letter(DecodeRune(data[r..]).rune)
    decreases |data| - start
  {
    hide DecodeRune, FullRune;
    if !(start == |data| || !Known(data[start..], atEOF) || letter(DecodeRune(data[start..]).rune)) {
      SkipStops(letter, data, atEOF, start + DecodeRune(data[start..]).size);
    }
  }

  lemma {:induction false} RunEndIs(letter: Letters, gs: seq<Glyph>, i: nat, k: nat)
    requires i <= k <= |gs| && (k < |gs| ==> !InWord(letter, gs, k))
    requires forall t :: i <= t < k ==> InWord(letter, gs, t)
    ensures RunEnd(letter, gs, i) == k
    decreases k - i
  {
    if i < k {
      RunEndIs(letter, gs, i + 1, k);
    }
  }

  /** The glyphs `pre` are the text between the two positions. */
  ghost predicate Reads(d: seq<byte>, start: nat, i: nat, pre: seq<Glyph>) {
    && start <= i <= |d|
    && Glyphs(d[start..]) == pre + Glyphs(d[i..])
    && Text(pre) == d[start..i]
  }

  lemma ReadsMore(d: seq<byte>, start: nat, i: nat, pre: seq<Glyph>) returns (longer: seq<Glyph>)
    requires Reads(d, start, i, pre) && i < |d|
    ensures
      var c := DecodeRune(d[i..]);
      && longer == pre + [Glyph(c.rune, d[i..i + c.size])]
      && Reads(d, start, i + c.size, longer)
  {
    hide DecodeRune, FullRune;
    var c := DecodeRune(d[i..]);
    var g := Glyph(c.rune, d[i..i + c.size]);
    longer := pre + [g];
    Rest(d, i, c.size);
    assert Glyphs(d[i..]) == [g] + Glyphs(d[i + c.size..]);
    assert pre + ([g] + Glyphs(d[i + c.size..])) == longer + Glyphs(d[i + c.size..]);
    TextOf(pre, [g]);
    assert Text([g]) == g.bytes + Text([]);
    assert d[start..i] + d[i..i + c.size] == d[start..i + c.size];
  }

  lemma NextWord(letter: Letters, gs: seq<Glyph>, i: nat)
    requires i < |gs|
    ensures WordsFrom(letter, gs, i) ==
              if InWord(letter, gs, i) then [Text(gs[i..RunEnd(letter, gs, i)])] + WordsFrom(letter, gs, RunEnd(letter, gs, i))
              else WordsFrom(letter, gs, i + 1)
  {
    hide InWord, RunEnd, Text;
  }

  lemma NoLetter(letter: Letters, gs: seq<Glyph>, i: nat)
    requires i < |gs| && !InWord(letter, gs, i)
    ensures !letter(gs[i].rune)
  {
  }

  /** A word that ends at glyph k, and the words after it. */
  lemma WordEndsAt(letter: Letters, gs: seq<Glyph>, k: nat)
    requires 0 < k < |gs| && !InWord(letter, gs, k)
    requires forall t :: 0 <= t < k ==> InWord(letter, gs, t)
    ensures WordsFrom(letter, gs, 0) == [Text(gs[..k])] + WordsFrom(letter, gs[k + 1..], 0)
  {
    hide Text, WordsFrom, RunEnd, InWord;
    NextWord(letter, gs, k);
    var rest := WordsFrom(letter, gs, k);
    assert rest == WordsFrom(letter, gs[k + 1..], 0) by {
      NoLetter(letter, gs, k);
      WordsAfterSeparator(letter, gs, k + 1, 0);
    }
    RunEndIs(letter, gs, 0, k);
    NextWord(letter, gs, 0);
    assert gs[0..k] == gs[..k];
  }

  ghost predicate InsideWord(letter: Letters, gs: seq<Glyph>, k: nat) {
    && k <= |gs| && |gs| > 0 && letter(gs[0].rune)
    && forall t :: 0 <= t < k ==> InWord(letter, gs, t)
  }

  /** What the second loop's outcome at position i says about the words from `start` on. */
  ghost predicate EndIsSound(letter: Letters, data: seq<byte>, more: seq<byte>, atEOF: bool, start: nat, r: Scan)
    requires start <= |data|
  {
    var d := data + more;
    match r
    case Wait => !atEOF
    case End(at, next) =>
      && start < at < next <= |data|
      && Words(letter, d[start..]) == [data[start..at]] + Words(letter, d[next..])
    case RanOut => atEOF ==> Words(letter, d[start..]) == [data[start..]]
  }

  lemma EndHere(letter: Letters, data: seq<byte>, more: seq<byte>, atEOF: bool, start: nat, i: nat, pre: seq<Glyph>)
    requires i < |data| && Reads(data + more, start, i, pre) && Known(data[i..], atEOF) && (atEOF ==> more == [])
    requires
      var gs := Glyphs((data + more)[start..]);
      |pre| < |gs| && InsideWord(letter, gs, |pre|) && !InWord(letter, gs, |pre|)
    ensures EndIsSound(letter, data, more, atEOF, start, End(i, i + DecodeRune(data[i..]).size))
  {
    hide DecodeRune, FullRune, Text, WordsFrom, Glyphs;
    var d := data + more;
    var gs := Glyphs(d[start..]);
    var size := DecodeRune(data[i..]).size;
    KnownDecodes(data, more, atEOF, i);
    var longer := ReadsMore(d, start, i, pre);
    assert InWord(letter, gs, 0);
    assert |gs| == |pre| + |Glyphs(d[i..])|;
    WordEndsAt(letter, gs, |pre|);
    assert gs[..|pre|] == pre && gs[|pre| + 1..] == Glyphs(d[i + size..]);
    assert d[start..i] == data[start..i];
  }

  lemma EndOfInput(letter: Letters, data: seq<byte>, start: nat, pre: seq<Glyph>)
    requires Reads(data, start, |data|, pre) && InsideWord(letter, Glyphs(data[start..]), |pre|)
    ensures Words(letter, data[start..]) == [data[start..]]
  {
    hide DecodeRune, Text;
    var gs := Glyphs(data[start..]);
    assert data[|data|..] == [] && Glyphs([]) == [];
    assert gs == pre;
    assert InWord(letter, gs, 0);
    RunEndIs(letter, gs, 0, |gs|);
    assert gs[0..|gs|] == gs;
    assert WordsFrom(letter, gs, |gs|) == [];
    assert data[start..|data|] == data[start..];
  }

  lemma NoWords(letter: Letters)
    ensures Words(letter, []) == []
  {
  }

  lemma NothingDecodes()
    ensures DecodeRune([]) == Decoded(RUNE_ERROR, 0)
  {
  }

  lemma FirstGlyph(data: seq<byte>)
    requires data != []
    ensures |Glyphs(data)| > 0 && |Glyphs(data)[0].bytes| > 0
    ensures Glyphs(data)[0].rune == DecodeRune(data).rune
  {
  }

  lemma {:induction false} EndIsRight(letter: Letters, data: seq<byte>, more: seq<byte>, atEOF: bool, start: nat, i: nat, pre: seq<Glyph>)
    requires !letter(RUNE_ERROR) && start <= i <= |data| && (atEOF ==> more == [])
    requires Reads(data + more, start, i, pre) && InsideWord(letter, Glyphs((data + more)[start..]), |pre|)
    ensures EndIsSound(letter, data, more, atEOF, start, WordEnd(letter, data, atEOF, i))
    decreases |data| - i
  {
    hide DecodeRune, FullRune, Text, WordsFrom, Glyphs, Words;
    var d := data + more;
    var gs := Glyphs(d[start..]);
    if i == |data| {
      if atEOF {
        assert d == data;
        EndOfInput(letter, data, start, pre);
      }
    } else if Known(data[i..], atEOF) {
      KnownDecodes(data, more, atEOF, i);
      var c := DecodeRune(data[i..]);
      var longer := ReadsMore(d, start, i, pre);
      assert gs == longer + Glyphs(d[i + c.size..]);
      assert gs[|pre|].rune == c.rune;
      if letter(c.rune) {
        EndIsRight(letter, data, more, atEOF, start, i + c.size, longer);
      } else if !Joiner(c.rune) {
        EndHere(letter, data, more, atEOF, start, i, pre);
      } else if Known(data[i + c.size..], atEOF) {
        JoinerIsRight(letter, data, more, atEOF, start, i, pre);
        if letter(DecodeRune(data[i + c.size..]).rune) {
          EndIsRight(letter, data, more, atEOF, start, i + c.size, longer);
        } else {
          EndHere(letter, data, more, atEOF, start, i, pre);
        }
      }
    }
  }

  /** A joiner belongs to the word exactly when a letter follows: a letter precedes it anyway. */
  lemma JoinerIsRight(letter: Letters, data: seq<byte>, more: seq<byte>, atEOF: bool, start: nat, i: nat, pre: seq<Glyph>)
    requires !letter(RUNE_ERROR) && start <= i < |data| && (atEOF ==> more == [])
    requires Reads(data + more, start, i, pre) && InsideWord(letter, Glyphs((data + more)[start..]), |pre|)
    requires Known(data[i..], atEOF)
    requires
      var c := DecodeRune(data[i..]);
      !letter(c.rune) && Joiner(c.rune) && Known(data[i + c.size..], atEOF)
    ensures
      var gs := Glyphs((data + more)[start..]);
      && |pre| < |gs|
      && (InWord(letter, gs, |pre|) <==> letter(DecodeRune(data[i + DecodeRune(data[i..]).size..]).rune))
  {
    hide DecodeRune, FullRune;
    var d := data + more;
    var gs := Glyphs(d[start..]);
    var k := |pre|;
    var c := DecodeRune(data[i..]);
    KnownDecodes(data, more, atEOF, i);
    KnownDecodes(data, more, atEOF, i + c.size);
    var longer := ReadsMore(d, start, i, pre);
    var after := Glyphs(d[i + c.size..]);
    assert gs == longer + after && gs[k].rune == c.rune;
    assert InWord(letter, gs, 0);
    assert InWord(letter, gs, k - 1);
    if after != [] {
      assert gs[k + 1] == after[0];
      FirstGlyph(d[i + c.size..]);
    } else {
      assert d[i + c.size..] == [];
      assert data[i + c.size..] == [];
      NothingDecodes();
    }
  }

  /** One call of the split function, whatever is still to come: it cuts off the first word, or
      only separators, and it waits only before the end of the input. */
  lemma ScanIsRight(letter: Letters, data: seq<byte>, more: seq<byte>, atEOF: bool)
    requires !letter(RUNE_ERROR) && (atEOF ==> more == [])
    ensures
      var d := data + more;
      var r := ScanResult(letter, data, atEOF);
      && r.advance <= |data|
      && (r.token.Some? ==>
            r.advance > 0 && r.token.value != [] && Words(letter, d) == [r.token.value] + Words(letter, d[r.advance..]))
      && (r.token.None? ==> Words(letter, d) == Words(letter, d[r.advance..]))
      && (r.token.None? && atEOF ==> Words(letter, d) == [])
  {
    hide DecodeRune, FullRune, WordsFrom;
    var d := data + more;
    var start := SkipTo(letter, data, atEOF, 0);
    SkipIsSound(letter, data, more, atEOF, 0);
    SkipStops(letter, data, atEOF, 0);
    assert d[0..] == d;
    if start < |data| && Known(data[start..], atEOF) {
      KnownDecodes(data, more, atEOF, start);
      FirstGlyph(d[start..]);
      assert Reads(d, start, start, []) by {
        assert [] + Glyphs(d[start..]) == Glyphs(d[start..]);
        assert d[start..start] == [];
      }
      EndIsRight(letter, data, more, atEOF, start, start, []);
      assert atEOF ==> d[|data|..] == [];
      NoWords(letter);
    } else if start == |data| {
      NoWords(letter);
      if atEOF {
        assert d[start..] == [];
      }
    }
  }

  // ---------- the scanner that drives it ----------

  function Joined(chunks: seq<seq<byte>>): seq<byte> {
    if chunks == [] then [] else chunks[0] + Joined(chunks[1..])
  }

  /** Reads the chunks one by one and splits what is in the buffer, like bufio.Scanner. The end of
      the input comes with the last chunk or after it. */
  method ScanAll(letter: Letters, chunks: seq<seq<byte>>, endWithLast: bool) returns (tokens: seq<seq<byte>>)
    requires !letter(RUNE_ERROR)
    ensures tokens == Words(letter, Joined(chunks))
    ensures forall t :: t in tokens ==> t != []
  {
    hide DecodeRune, FullRune, Words, ScanResult;
    tokens := [];
    var buf: seq<byte> := [];
    var next := 0;
    var eof := false;
    ghost var all := Joined(chunks);
    assert chunks[0..] == chunks && [] + all == all;
    while true
      invariant next <= |chunks| && (eof ==> next == |chunks|)
      invariant tokens + Words(letter, buf + Joined(chunks[next..])) == Words(letter, all)
      invariant forall t :: t in tokens ==> t != []
      decreases |chunks| - next, if eof then 0 else 1, |buf|
    {
      ghost var rest := Joined(chunks[next..]);
      if |buf| > 0 || eof {
        var advance, token := ScanWords(letter, buf, eof);
        ScanIsRight(letter, buf, rest, eof);
        assert (buf + rest)[advance..] == buf[advance..] + rest;
        buf := buf[advance..];
        if token.Some? {
          tokens := tokens + [token.value];
          continue;
        }
      }
      if eof {
        assert tokens + [] == tokens;
        return;
      }
      if next < |chunks| {
        assert buf + rest == buf + chunks[next] + Joined(chunks[next + 1..]) by {
          assert chunks[next..][1..] == chunks[next + 1..];
        }
        buf := buf + chunks[next];
        next := next + 1;
        eof := endWithLast && next == |chunks|;
      } else {
        eof := true;
      }
    }
  }

  // ---------- which runes join ----------

  lemma FirstIs(r: int, rest: seq<byte>)
    requires Scalar(r)
    ensures Glyphs(EncodeRune(r) + rest) == [Glyph(r, EncodeRune(r))] + Glyphs(rest)
  {
    hide DecodeRune, FullRune, EncodeRune;
    var data := EncodeRune(r) + rest;
    DecodeEncode(r, rest);
    EncodingIsNotEmpty(r);
    assert data[..|EncodeRune(r)|] == EncodeRune(r) && data[|EncodeRune(r)|..] == rest;
  }

  lemma EncodingIsNotEmpty(r: int)
    requires Scalar(r)
    ensures EncodeRune(r) != []
  {
  }

  lemma ThreeGlyphs(a: int, j: int, b: int)
    requires Scalar(a) && Scalar(j) && Scalar(b)
    ensures Glyphs(EncodeRune(a) + (EncodeRune(j) + EncodeRune(b)))
            == [Glyph(a, EncodeRune(a)), Glyph(j, EncodeRune(j)), Glyph(b, EncodeRune(b))]
  {
    hide EncodeRune, Glyphs;
    FirstIs(a, EncodeRune(j) + EncodeRune(b));
    FirstIs(j, EncodeRune(b));
    FirstIs(b, []);
    assert EncodeRune(b) + [] == EncodeRune(b);
    NoGlyphs();
  }

  lemma NoGlyphs()
    ensures Glyphs([]) == []
  {
  }

  lemma TextOfUpTo3(gs: seq<Glyph>)
    ensures |gs| == 1 ==> Text(gs) == gs[0].bytes
    ensures |gs| == 3 ==> Text(gs) == gs[0].bytes + (gs[1].bytes + gs[2].bytes)
  {
    if |gs| == 1 {
      assert gs[1..] == [];
    }
    if |gs| == 3 {
      assert gs[1..][1..] == [gs[2]] && [gs[2]][1..] == [];
      assert Text([gs[2]]) == gs[2].bytes + Text([]);
      assert Text(gs[1..]) == gs[1].bytes + Text([gs[2]]);
    }
  }

  /** A rune that is no letter joins the two letters around it exactly if it is an apostrophe, typed
      (U+0027) or printed (U+2019), or a hyphen (U+002D); any other one separates them. */
  lemma OnlyTheseJoin(letter: Letters, a: int, j: int, b: int)
    requires Scalar(a) && Scalar(j) && Scalar(b) && letter(a) && letter(b) && !letter(j)
    ensures Words(letter, EncodeRune(a) + (EncodeRune(j) + EncodeRune(b)))
            == if j == 0x27 || j == 0x2019 || j == 0x2D then [EncodeRune(a) + (EncodeRune(j) + EncodeRune(b))]
               else [EncodeRune(a), EncodeRune(b)]
  {
    hide EncodeRune, Glyphs, Text, WordsFrom, RunEnd;
    ThreeGlyphs(a, j, b);
    var gs := [Glyph(a, EncodeRune(a)), Glyph(j, EncodeRune(j)), Glyph(b, EncodeRune(b))];
    assert InWord(letter, gs, 0) && InWord(letter, gs, 2);
    NextWord(letter, gs, 0);
    NextWord(letter, gs, 1);
    NextWord(letter, gs, 2);
    NoMoreWords(letter, gs);
    RunEndIs(letter, gs, 2, 3);
    TextOfUpTo3(gs);
    TextOfUpTo3(gs[0..1]);
    TextOfUpTo3(gs[2..3]);
    if InWord(letter, gs, 1) {
      RunEndIs(letter, gs, 0, 3);
      assert gs[0..3] == gs;
    } else {
      RunEndIs(letter, gs, 0, 1);
    }
  }

  lemma NoMoreWords(letter: Letters, gs: seq<Glyph>)
    ensures WordsFrom(letter, gs, |gs|) == []
  {
  }
}

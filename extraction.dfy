/**
 * The extraction loop of `Extractor.parse`.  The tagger's node chain becomes
 * a sequence of morpheme records; the generator becomes a method returning
 * every word it would yield, and the exception that would end it.
 */
module Extraction {
  import opened Wrappers
  import opened Features
  import opened Accumulator

  /** One tagger node: surface text, feature string, `length` and `rlength`. */
  datatype Morpheme = Morpheme(surface: string, feature: string, length: int, rlength: int)

  /** The characters the tagger skipped just before this morpheme (`rlength - length`). */
  function Pad(m: Morpheme): int {
    m.rlength - m.length
  }

  /** The state of the loop: words yielded so far, the accumulator, `cur`, and a raised error. */
  datatype Run = Run(emitted: seq<Word>, buffer: Buffer, cur: int, failed: Option<Error>)

  /**
   * One turn of the loop: advance `cur` over the padding, `put` the
   * morpheme at `cur`, `get` when `put` returns true, then advance `cur`
   * over the surface.  An error ends the run with the accumulator untouched.
   */
  function Step(r: Run, m: Morpheme): Run {
    var at := r.cur + Pad(m);
    match Offer(r.buffer, m.surface, at, m.feature)
    case Err(e) => r.(failed := Some(e))
    case Ok((b, fire)) =>
      if fire then Run(r.emitted + [Take(b).0], Take(b).1, at + |m.surface|, None)
      else Run(r.emitted, b, at + |m.surface|, None)
  }

  /** A turn whose `put` raises ends the run, with the accumulator and `cur` as they were. */
  lemma StepRaises(r: Run, m: Morpheme, e: Error)
    requires Offer(r.buffer, m.surface, r.cur + Pad(m), m.feature) == Err(e)
    ensures Step(r, m) == Run(r.emitted, r.buffer, r.cur, Some(e))
  {
  }

  /** A turn whose `put` succeeds: the new buffer, or a word taken from it when `put` returned true. */
  lemma StepYields(r: Run, m: Morpheme, b: Buffer, fire: bool)
    requires Offer(r.buffer, m.surface, r.cur + Pad(m), m.feature) == Ok((b, fire))
    ensures fire ==> Step(r, m) == Run(r.emitted + [Take(b).0], Empty, r.cur + Pad(m) + |m.surface|, None)
    ensures !fire ==> Step(r, m) == Run(r.emitted, b, r.cur + Pad(m) + |m.surface|, None)
  {
  }

  /** The whole loop over the remaining morphemes, stopping at the first error. */
  function Extract(r: Run, nodes: seq<Morpheme>): Run
    decreases |nodes|
  {
    if nodes == [] || r.failed.Some? then r else Extract(Step(r, nodes[0]), nodes[1..])
  }

  /** One turn of the loop over the morphemes from position i on. */
  lemma ExtractTurn(r: Run, nodes: seq<Morpheme>, i: nat)
    requires i < |nodes| && r.failed.None?
    ensures Extract(r, nodes[i..]) == Extract(Step(r, nodes[i]), nodes[i + 1..])
  {
    assert nodes[i..][0] == nodes[i] && nodes[i..][1..] == nodes[i + 1..];
  }

  /** The loop state a fresh accumulator starts from. */
  const Start := Run([], Empty, 0, None)

  /** The extractor: it owns one accumulator for its lifetime, shared by every `parse` call. */
  class Extractor {
    var fm: FeatureManager

    constructor ()
      ensures fresh(fm) && fm.words == [] && fm.location == None
    {
      fm := new FeatureManager();
    }

    /** parse(text), on the morphemes the tagger produced for the text. */
    method Parse(nodes: seq<Morpheme>) returns (out: seq<Word>, failure: Option<Error>)
      modifies fm
      ensures var r := Extract(Run([], old(fm.Snapshot()), 0, None), nodes);
              out == r.emitted && failure == r.failed && fm.Snapshot() == r.buffer
    {
      ghost var start := Run([], fm.Snapshot(), 0, None);
      out, failure := [], None;
      var cur := 0;
      var i := 0;
      while i < |nodes|
        invariant 0 <= i <= |nodes|
        invariant Extract(start, nodes) == Extract(Run(out, fm.Snapshot(), cur, None), nodes[i..])
      {
        var node := nodes[i];
        ghost var before := Run(out, fm.Snapshot(), cur, None);
        ExtractTurn(before, nodes, i);
        cur := cur + (node.rlength - node.length);
        var fire := fm.Put(node.surface, cur, node.feature);
        match fire {
          case Err(e) =>
            failure := Some(e);
            StepRaises(before, node, e);
            return;
          case Ok(true) =>
            ghost var full := fm.Snapshot();
            var word, at := fm.Get();
            out := out + [Word(word, at)];
            StepYields(before, node, full, true);
          case Ok(false) =>
            StepYields(before, node, fm.Snapshot(), false);
        }
        cur := cur + |node.surface|;
        i := i + 1;
      }
    }
  }

  // ---------------------------------------------------------------------
  // Running the loop in pieces
  // ---------------------------------------------------------------------

  lemma {:induction false} ExtractSplit(r: Run, a: seq<Morpheme>, b: seq<Morpheme>)
    ensures Extract(r, a + b) == Extract(Extract(r, a), b)
    decreases |a|
  {
    if a == [] {
      assert a + b == b;
    } else if r.failed.None? {
      assert (a + b)[0] == a[0] && (a + b)[1..] == a[1..] + b;
      ExtractSplit(Step(r, a[0]), a[1..], b);
    }
  }

  // ---------------------------------------------------------------------
  // The cursor
  // ---------------------------------------------------------------------

  /** How far `cur` moves over these morphemes: their padding and their surfaces. */
  function Advance(nodes: seq<Morpheme>): int {
    if nodes == [] then 0 else Pad(nodes[0]) + |nodes[0].surface| + Advance(nodes[1..])
  }

  /** The offset `put` receives for morpheme i. */
  function Offset(nodes: seq<Morpheme>, i: nat): int
    requires i < |nodes|
  {
    Advance(nodes[..i]) + Pad(nodes[i])
  }

  /** The surfaces one after another. */
  function Surfaces(nodes: seq<Morpheme>): string {
    if nodes == [] then "" else nodes[0].surface + Surfaces(nodes[1..])
  }

  /** The padding of all these morphemes together. */
  function TotalPad(nodes: seq<Morpheme>): int {
    if nodes == [] then 0 else Pad(nodes[0]) + TotalPad(nodes[1..])
  }

  lemma {:induction false} SumsSplit(a: seq<Morpheme>, b: seq<Morpheme>)
    ensures Advance(a + b) == Advance(a) + Advance(b)
    ensures Surfaces(a + b) == Surfaces(a) + Surfaces(b)
    ensures TotalPad(a + b) == TotalPad(a) + TotalPad(b)
  {
    if a == [] {
      assert a + b == b;
    } else {
      assert (a + b)[0] == a[0] && (a + b)[1..] == a[1..] + b;
      SumsSplit(a[1..], b);
    }
  }

  /** Where the loop leaves `cur`, when nothing raised. */
  lemma {:induction false} ExtractCursor(r: Run, nodes: seq<Morpheme>)
    ensures Extract(r, nodes).failed.None? ==> Extract(r, nodes).cur == r.cur + Advance(nodes)
    decreases |nodes|
  {
    if nodes != [] && r.failed.None? {
      ExtractCursor(Step(r, nodes[0]), nodes[1..]);
    }
  }

  /**
   * The offset passed for morpheme i is the padding of morphemes 0..i plus
   * the lengths of the surfaces before it.
   */
  lemma PutOffset(nodes: seq<Morpheme>, i: nat)
    requires i < |nodes|
    ensures Extract(Start, nodes[..i]).failed.None?
            ==> Extract(Start, nodes[..i]).cur + Pad(nodes[i]) == Offset(nodes, i)
    ensures Offset(nodes, i) == TotalPad(nodes[..i + 1]) + |Surfaces(nodes[..i])|
  {
    ExtractCursor(Start, nodes[..i]);
    AdvanceIsPadPlusSurfaces(nodes[..i]);
    SumsSplit(nodes[..i], [nodes[i]]);
    assert nodes[..i + 1] == nodes[..i] + [nodes[i]];
  }

  lemma {:induction false} AdvanceIsPadPlusSurfaces(nodes: seq<Morpheme>)
    ensures Advance(nodes) == TotalPad(nodes) + |Surfaces(nodes)|
  {
    if nodes != [] {
      AdvanceIsPadPlusSurfaces(nodes[1..]);
    }
  }

  predicate NoPadding(nodes: seq<Morpheme>) {
    forall i :: 0 <= i < |nodes| ==> nodes[i].rlength == nodes[i].length
  }

  lemma {:induction false} NoPaddingTotal(nodes: seq<Morpheme>)
    requires NoPadding(nodes)
    ensures TotalPad(nodes) == 0
  {
    if nodes != [] {
      assert NoPadding(nodes[1..]) by {
        forall i | 0 <= i < |nodes[1..]| ensures nodes[1..][i].rlength == nodes[1..][i].length {
          assert nodes[1..][i] == nodes[i + 1];
        }
      }
      NoPaddingTotal(nodes[1..]);
    }
  }

  /** Without padding, morpheme i's offset is where its surface starts in the joined surfaces. */
  lemma NoPaddingOffset(nodes: seq<Morpheme>, i: nat)
    requires i < |nodes| && NoPadding(nodes)
    ensures Offset(nodes, i) == |Surfaces(nodes[..i])|
    ensures Offset(nodes, i) + |nodes[i].surface| <= |Surfaces(nodes)|
    ensures Surfaces(nodes)[Offset(nodes, i)..Offset(nodes, i) + |nodes[i].surface|] == nodes[i].surface
  {
    PutOffset(nodes, i);
    NoPaddingTotal(nodes[..i + 1]);
    SurfacesAround(nodes, i);
    var o := |Surfaces(nodes[..i])|;
    var t := Surfaces(nodes[..i]) + nodes[i].surface + Surfaces(nodes[i + 1..]);
    assert t[o..o + |nodes[i].surface|] == nodes[i].surface;
  }

  /** The joined surfaces split around morpheme i. */
  lemma {:induction false} SurfacesAround(nodes: seq<Morpheme>, i: nat)
    requires i < |nodes|
    ensures Surfaces(nodes) == Surfaces(nodes[..i]) + nodes[i].surface + Surfaces(nodes[i + 1..])
  {
    var tail := [nodes[i]] + nodes[i + 1..];
    assert nodes == nodes[..i] + tail;
    assert tail[0] == nodes[i] && tail[1..] == nodes[i + 1..];
    assert Surfaces(tail) == nodes[i].surface + Surfaces(nodes[i + 1..]);
    SumsSplit(nodes[..i], tail);
  }

  predicate PaddingNonNegative(nodes: seq<Morpheme>) {
    forall i :: 0 <= i < |nodes| ==> nodes[i].length <= nodes[i].rlength
  }

  lemma {:induction false} AdvanceNonNegative(nodes: seq<Morpheme>)
    requires PaddingNonNegative(nodes)
    ensures Advance(nodes) >= 0
  {
    if nodes != [] {
      assert PaddingNonNegative(nodes[1..]) by {
        forall i | 0 <= i < |nodes[1..]| ensures nodes[1..][i].length <= nodes[1..][i].rlength {
          assert nodes[1..][i] == nodes[i + 1];
        }
      }
      AdvanceNonNegative(nodes[1..]);
    }
  }

  /** With rlength >= length throughout, `cur` never decreases. */
  lemma CursorMonotone(nodes: seq<Morpheme>, i: nat, j: nat)
    requires i <= j < |nodes| && PaddingNonNegative(nodes)
    ensures 0 <= Advance(nodes[..i]) <= Offset(nodes, i)
    ensures Offset(nodes, i) <= Offset(nodes, j)
  {
    assert PaddingNonNegative(nodes[..i]);
    AdvanceNonNegative(nodes[..i]);
    if i < j {
      var middle := nodes[i + 1..j];
      assert PaddingNonNegative(middle) by {
        forall k | 0 <= k < |middle| ensures middle[k].length <= middle[k].rlength {
          assert middle[k] == nodes[i + 1 + k];
        }
      }
      AdvanceNonNegative(middle);
      assert nodes[..j] == nodes[..i] + ([nodes[i]] + nodes[i + 1..j]);
      SumsSplit(nodes[..i], [nodes[i]] + nodes[i + 1..j]);
      SumsSplit([nodes[i]], nodes[i + 1..j]);
      assert Advance([nodes[i]]) == Pad(nodes[i]) + |nodes[i].surface| + Advance([]);
    }
  }

  // ---------------------------------------------------------------------
  // What the loop yields
  // ---------------------------------------------------------------------

  /** The morpheme is classified without error and not as IGNORE, so `put` appends it. */
  predicate Appends(m: Morpheme) {
    GetCondition(m.feature, None).Ok? && GetCondition(m.feature, None).value != Ignore
  }

  /** The accumulator keeps its invariant and every word yielded so far has an offset. */
  predicate Located(r: Run) {
    && Anchored(r.buffer)
    && forall k :: 0 <= k < |r.emitted| ==> r.emitted[k].location.Some?
  }

  /** No buffered fragment and no yielded word is empty. */
  predicate Filled(r: Run) {
    && (forall k :: 0 <= k < |r.buffer.words| ==> r.buffer.words[k] != "")
    && (forall k :: 0 <= k < |r.emitted| ==> r.emitted[k].text != "")
  }

  /** Every morpheme `put` appends has a non-empty surface. */
  predicate AppendedSurfacesNonEmpty(nodes: seq<Morpheme>) {
    forall i :: 0 <= i < |nodes| ==> Appends(nodes[i]) ==> nodes[i].surface != ""
  }

  lemma StepLocated(r: Run, m: Morpheme)
    requires Located(r)
    ensures Located(Step(r, m))
    ensures Filled(r) && (Appends(m) ==> m.surface != "") ==> Filled(Step(r, m))
  {
    var at := r.cur + Pad(m);
    match Offer(r.buffer, m.surface, at, m.feature)
    case Err(_) =>
    case Ok((b, fire)) =>
      if fire && Filled(r) && (Appends(m) ==> m.surface != "") {
        assert forall k :: 0 <= k < |b.words| ==> b.words[k] != "";
        ConcatNonEmpty(b.words);
      }
  }

  /**
   * Every word the loop yields has a non-None offset and, when no appended
   * surface is empty, non-empty text; the accumulator invariant holds throughout.
   */
  lemma {:induction false} ExtractLocated(r: Run, nodes: seq<Morpheme>)
    requires Located(r)
    ensures Located(Extract(r, nodes))
    ensures Filled(r) && AppendedSurfacesNonEmpty(nodes) ==> Filled(Extract(r, nodes))
    decreases |nodes|
  {
    if nodes != [] && r.failed.None? {
      StepLocated(r, nodes[0]);
      assert AppendedSurfacesNonEmpty(nodes) ==> AppendedSurfacesNonEmpty(nodes[1..]) by {
        if AppendedSurfacesNonEmpty(nodes) {
          forall i | 0 <= i < |nodes[1..]| ensures Appends(nodes[1..][i]) ==> nodes[1..][i].surface != "" {
            assert nodes[1..][i] == nodes[i + 1];
          }
        }
      }
      ExtractLocated(Step(r, nodes[0]), nodes[1..]);
    }
  }

  /** The yielded words' texts one after another. */
  function Texts(words: seq<Word>): string {
    if words == [] then "" else words[0].text + Texts(words[1..])
  }

  lemma {:induction false} TextsAppend(words: seq<Word>, w: Word)
    ensures Texts(words + [w]) == Texts(words) + w.text
  {
    if words != [] {
      assert (words + [w])[1..] == words[1..] + [w];
      TextsAppend(words[1..], w);
    } else {
      assert Texts([w]) == w.text + Texts([]);
    }
  }

  /** The surfaces `put` appends, one after another. */
  function Kept(nodes: seq<Morpheme>): string {
    if nodes == [] then "" else (if Appends(nodes[0]) then nodes[0].surface else "") + Kept(nodes[1..])
  }

  lemma StepConserves(r: Run, m: Morpheme)
    requires r.failed.None? && Step(r, m).failed.None?
    ensures var s := Step(r, m);
            Texts(s.emitted) + Concat(s.buffer.words)
            == Texts(r.emitted) + Concat(r.buffer.words) + (if Appends(m) then m.surface else "")
  {
    var at := r.cur + Pad(m);
    match Offer(r.buffer, m.surface, at, m.feature)
    case Err(_) =>
    case Ok((b, fire)) =>
      if Appends(m) {
        ConcatAppend(r.buffer.words, m.surface);
      }
      if fire {
        TextsAppend(r.emitted, Take(b).0);
      }
  }

  /**
   * Nothing is lost and nothing is repeated: the yielded words and the
   * buffer together hold exactly the appended surfaces, in order.
   */
  lemma {:induction false} ExtractConserves(r: Run, nodes: seq<Morpheme>)
    ensures var f := Extract(r, nodes);
            f.failed.None? ==>
              Texts(f.emitted) + Concat(f.buffer.words) == Texts(r.emitted) + Concat(r.buffer.words) + Kept(nodes)
    decreases |nodes|
  {
    if nodes != [] && r.failed.None? {
      var s := Step(r, nodes[0]);
      ExtractConserves(s, nodes[1..]);
      if s.failed.None? {
        StepConserves(r, nodes[0]);
      }
    }
  }

  /**
   * A morpheme classified IGNORE (the tagger's BOS/EOS sentinel ends every
   * chain) flushes the pending word: after a final IGNORE nothing is left
   * buffered and every appended surface has been yielded.
   */
  lemma SentinelFlushes(r: Run, nodes: seq<Morpheme>, last: Morpheme)
    requires Located(r) && GetCondition(last.feature, None) == Ok(Ignore)
    ensures var f := Extract(r, nodes + [last]);
            f.failed.None? ==>
              && f.buffer == Empty
              && Texts(f.emitted) == Texts(r.emitted) + Concat(r.buffer.words) + Kept(nodes + [last])
  {
    ExtractSplit(r, nodes, [last]);
    var g := Extract(r, nodes);
    ExtractLocated(r, nodes);
    ExtractConserves(r, nodes + [last]);
    if g.failed.None? {
      assert Extract(g, [last]) == Extract(Step(g, last), []);
    }
  }

  // ---------------------------------------------------------------------
  // Offsets of the yielded words (no padding)
  // ---------------------------------------------------------------------

  /** Each word stands in the text at its offset. */
  predicate WordsAt(words: seq<Word>, text: string) {
    forall k :: 0 <= k < |words| ==>
      && words[k].location.Some?
      && 0 <= words[k].location.value
      && words[k].location.value + |words[k].text| <= |text|
      && text[words[k].location.value..words[k].location.value + |words[k].text|] == words[k].text
  }

  /** The buffered fragments are the tail of `text`, anchored where that tail starts. */
  predicate TailOf(b: Buffer, text: string) {
    && (b.words == [] ==> b.location == None)
    && (b.words != [] ==>
          && |Concat(b.words)| <= |text|
          && b.location == Some(|text| - |Concat(b.words)|)
          && text[|text| - |Concat(b.words)|..] == Concat(b.words))
  }

  /**
   * The loop state after reading `text` without padding: `cur` is its
   * length, the yielded words stand in it, and the buffer is its tail.
   */
  predicate Tracks(r: Run, text: string) {
    && r.failed.None?
    && r.cur == |text|
    && WordsAt(r.emitted, text)
    && TailOf(r.buffer, text)
  }

  lemma WordsAtExtend(words: seq<Word>, text: string, more: string)
    requires WordsAt(words, text)
    ensures WordsAt(words, text + more)
  {
    forall k | 0 <= k < |words|
      ensures (text + more)[words[k].location.value..words[k].location.value + |words[k].text|] == words[k].text
    {
      var o := words[k].location.value;
      assert (text + more)[o..o + |words[k].text|] == text[o..o + |words[k].text|];
    }
  }

  /**
   * Offering a morpheme read right after `text`: an appended fragment
   * keeps the buffer the tail of the longer text; anything else leaves the
   * buffer alone and fires if a word is pending.
   */
  lemma OfferTail(buffer: Buffer, text: string, m: Morpheme, b: Buffer, fire: bool)
    requires TailOf(buffer, text)
    requires Offer(buffer, m.surface, |text|, m.feature) == Ok((b, fire))
    ensures Appends(m) ==> TailOf(b, text + m.surface)
    ensures !Appends(m) ==> b == buffer && (b.words != [] ==> fire)
  {
    if Appends(m) {
      var text' := text + m.surface;
      var c := Concat(b.words);
      var c0 := Concat(buffer.words);
      ConcatAppend(buffer.words, m.surface);
      assert c == c0 + m.surface;
      if buffer.words != [] {
        assert text'[|text'| - |c|..] == text[|text| - |c0|..] + m.surface;
      } else {
        assert c0 == "" && c == m.surface;
      }
      assert b.location == Some(|text'| - |c|);
      assert text'[|text'| - |c|..] == c;
    }
  }

  lemma WordsAtAppend(words: seq<Word>, w: Word, text: string)
    requires WordsAt(words, text) && WordsAt([w], text)
    ensures WordsAt(words + [w], text)
  {
    forall k | 0 <= k < |words| + 1
      ensures (words + [w])[k] == if k < |words| then words[k] else [w][0]
    {
    }
  }

  /** The word taken from a non-empty tail stands in the text at its anchor. */
  lemma TakeStands(b: Buffer, text: string)
    requires TailOf(b, text) && b.words != []
    ensures WordsAt([Take(b).0], text)
  {
    var w := Take(b).0;
    assert w.location.value + |w.text| == |text|;
    assert text[w.location.value..w.location.value + |w.text|] == text[|text| - |Concat(b.words)|..];
  }

  lemma StepTracks(r: Run, text: string, m: Morpheme)
    requires Tracks(r, text) && Pad(m) == 0
    ensures Step(r, m).failed.None? ==> Tracks(Step(r, m), text + m.surface)
    ensures WordsAt(Step(r, m).emitted, text + m.surface)
  {
    var text' := text + m.surface;
    WordsAtExtend(r.emitted, text, m.surface);
    match Offer(r.buffer, m.surface, r.cur, m.feature)
    case Err(_) =>
    case Ok((b, fire)) =>
      OfferTail(r.buffer, text, m, b, fire);
      if fire {
        var w := Take(b).0;
        if Appends(m) {
          TakeStands(b, text');
        } else {
          TakeStands(b, text);
          WordsAtExtend([w], text, m.surface);
        }
        WordsAtAppend(r.emitted, w, text');
      }
  }

  /**
   * Without padding the loop keeps its state tied to the text read so far,
   * so every word it yields stands in the joined surfaces at its offset.
   */
  lemma {:induction false} ExtractTracks(r: Run, text: string, nodes: seq<Morpheme>)
    requires Tracks(r, text) && NoPadding(nodes)
    ensures WordsAt(Extract(r, nodes).emitted, text + Surfaces(nodes))
    ensures Extract(r, nodes).failed.None? ==> Tracks(Extract(r, nodes), text + Surfaces(nodes))
    decreases |nodes|
  {
    if nodes == [] {
      assert text + Surfaces(nodes) == text;
      WordsAtExtend(r.emitted, text, "");
    } else {
      var s := Step(r, nodes[0]);
      StepTracks(r, text, nodes[0]);
      assert text + Surfaces(nodes) == (text + nodes[0].surface) + Surfaces(nodes[1..]);
      if s.failed.None? {
        assert NoPadding(nodes[1..]) by {
          forall i | 0 <= i < |nodes[1..]| ensures nodes[1..][i].rlength == nodes[1..][i].length {
            assert nodes[1..][i] == nodes[i + 1];
          }
        }
        ExtractTracks(s, text + nodes[0].surface, nodes[1..]);
      } else {
        WordsAtExtend(s.emitted, text + nodes[0].surface, Surfaces(nodes[1..]));
      }
    }
  }

  /** Offset correctness: from a fresh accumulator without padding, each word is found in the text at its offset. */
  lemma WordsStandAtTheirOffsets(nodes: seq<Morpheme>)
    requires NoPadding(nodes)
    ensures WordsAt(Extract(Start, nodes).emitted, Surfaces(nodes))
  {
    ExtractTracks(Start, "", nodes);
    assert "" + Surfaces(nodes) == Surfaces(nodes);
  }
}

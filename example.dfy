/**
 * The sentence of the repository's unit test, "2番目に重要な物を選んでください。",
 * as a tagger would chain it, BOS/EOS sentinels included.  Each morpheme is
 * given by its surface, its UTF-8 byte count (`length` and `rlength` agree:
 * the text has no spaces) and the first two fields of its feature string,
 * word class and sub-class, which are assumed IPADIC-style tags.  The fields
 * after those two are left free: the classifier never reads them
 * (`ClassifyLeadingFields`), and the extractor yields ("2番目", 0) and
 * ("重要", 4) and nothing else whatever they hold.
 */
module Example {
  import opened Wrappers
  import opened Features
  import opened Accumulator
  import opened Extraction

  const SurfaceForms: seq<string> := ["", "2", "番目", "に", "重要", "な", "物", "を", "選ん", "で", "ください", "。", ""]
  const Classes: seq<string> := ["BOS/EOS", "名詞", "名詞", "助詞", "名詞", "助動詞", "名詞", "助詞", "動詞", "助詞", "動詞", "記号", "BOS/EOS"]
  const SubClasses: seq<string> := ["*", "数", "接尾", "格助詞", "形容動詞語幹", "*", "非自立", "格助詞", "自立", "接続助詞", "非自立", "句点", "*"]
  const Bytes: seq<int> := [0, 1, 6, 3, 6, 3, 3, 3, 6, 3, 12, 3, 0]
  /** What the classifier makes of each morpheme. */
  const Tags: seq<Condition> := [Ignore, Continuity, Stop, Ignore, Stop, Ignore, Ignore, Ignore, Ignore, Ignore, Ignore, Ignore, Ignore]

  /** The sentence, with `rest[k]` as the feature fields of morpheme k after its sub-class. */
  function Sentence(rest: seq<string>): (nodes: seq<Morpheme>)
    requires |rest| == 13
    ensures |nodes| == 13
    ensures forall k :: 0 <= k < 13 ==> nodes[k].surface == SurfaceForms[k] && Pad(nodes[k]) == 0
    ensures forall k :: 0 <= k < 13 ==> nodes[k].feature == Classes[k] + "," + SubClasses[k] + "," + rest[k]
  {
    seq(13, k requires 0 <= k < 13 => Morpheme(SurfaceForms[k], Classes[k] + "," + SubClasses[k] + "," + rest[k], Bytes[k], Bytes[k]))
  }

  const First := [Word("2番目", Some(0))]
  const Both := [Word("2番目", Some(0)), Word("重要", Some(4))]

  /** The sentence's morphemes, described by what the loop looks at: surface, class and padding. */
  predicate ShapedLikeSentence(nodes: seq<Morpheme>) {
    && |nodes| == 13
    && (forall k :: 0 <= k < 13 ==> nodes[k].surface == SurfaceForms[k] && Pad(nodes[k]) == 0)
    && (forall k :: 0 <= k < 13 ==> GetCondition(nodes[k].feature, None) == Ok(Tags[k]))
  }

  /** The opening BOS/EOS sentinel is IGNORE and moves nothing. */
  lemma Turn0(nodes: seq<Morpheme>)
    requires ShapedLikeSentence(nodes)
    ensures Extract(Start, nodes[0..]) == Extract(Run([], Empty, 0, None), nodes[1..])
  {
    assert nodes[0].surface == SurfaceForms[0] && Pad(nodes[0]) == 0;
    assert GetCondition(nodes[0].feature, None) == Ok(Tags[0]);
    assert Step(Start, nodes[0]) == Run([], Empty, 0, None);
    ExtractTurn(Start, nodes, 0);
  }

  /** The numeral 2 opens a word at offset 0. */
  lemma Turn1(nodes: seq<Morpheme>)
    requires ShapedLikeSentence(nodes)
    ensures Extract(Run([], Empty, 0, None), nodes[1..]) == Extract(Run([], Buffer(["2"], Some(0)), 1, None), nodes[2..])
  {
    assert nodes[1].surface == SurfaceForms[1] && Pad(nodes[1]) == 0;
    assert GetCondition(nodes[1].feature, None) == Ok(Tags[1]);
    assert Step(Run([], Empty, 0, None), nodes[1]) == Run([], Buffer(["2"], Some(0)), 1, None);
    ExtractTurn(Run([], Empty, 0, None), nodes, 1);
  }

  /** The counter suffix 番目 is a STOP: it closes the word 2番目. */
  lemma Turn2(nodes: seq<Morpheme>)
    requires ShapedLikeSentence(nodes)
    ensures Extract(Run([], Buffer(["2"], Some(0)), 1, None), nodes[2..]) == Extract(Run(First, Empty, 3, None), nodes[3..])
  {
    assert nodes[2].surface == SurfaceForms[2] && Pad(nodes[2]) == 0;
    assert GetCondition(nodes[2].feature, None) == Ok(Tags[2]);
    assert ["2"] + ["番目"] == ["2", "番目"];
    assert Concat(["2", "番目"]) == "2番目" by {
      assert Concat(["番目"]) == "番目" + Concat([]);
    }
    assert Step(Run([], Buffer(["2"], Some(0)), 1, None), nodes[2]) == Run(First, Empty, 3, None);
    ExtractTurn(Run([], Buffer(["2"], Some(0)), 1, None), nodes, 2);
  }

  /** The particle に is IGNORE with nothing pending. */
  lemma Turn3(nodes: seq<Morpheme>)
    requires ShapedLikeSentence(nodes)
    ensures Extract(Run(First, Empty, 3, None), nodes[3..]) == Extract(Run(First, Empty, 4, None), nodes[4..])
  {
    assert nodes[3].surface == SurfaceForms[3] && Pad(nodes[3]) == 0;
    assert GetCondition(nodes[3].feature, None) == Ok(Tags[3]);
    assert Step(Run(First, Empty, 3, None), nodes[3]) == Run(First, Empty, 4, None);
    ExtractTurn(Run(First, Empty, 3, None), nodes, 3);
  }

  /** The noun 重要 is a STOP on an empty buffer: a word by itself, at offset 4. */
  lemma Turn4(nodes: seq<Morpheme>)
    requires ShapedLikeSentence(nodes)
    ensures Extract(Run(First, Empty, 4, None), nodes[4..]) == Extract(Run(Both, Empty, 6, None), nodes[5..])
  {
    assert nodes[4].surface == SurfaceForms[4] && Pad(nodes[4]) == 0;
    assert GetCondition(nodes[4].feature, None) == Ok(Tags[4]);
    assert Empty.words + ["重要"] == ["重要"];
    assert Concat(["重要"]) == "重要" by {
      assert Concat(["重要"]) == "重要" + Concat([]);
      assert "重要" + "" == "重要";
    }
    assert First + [Word("重要", Some(4))] == Both;
    assert Step(Run(First, Empty, 4, None), nodes[4]) == Run(Both, Empty, 6, None);
    ExtractTurn(Run(First, Empty, 4, None), nodes, 4);
  }

  /** The auxiliary な is IGNORE. */
  lemma Turn5(nodes: seq<Morpheme>)
    requires ShapedLikeSentence(nodes)
    ensures Extract(Run(Both, Empty, 6, None), nodes[5..]) == Extract(Run(Both, Empty, 7, None), nodes[6..])
  {
    assert nodes[5].surface == SurfaceForms[5] && Pad(nodes[5]) == 0;
    assert GetCondition(nodes[5].feature, None) == Ok(Tags[5]);
    assert Step(Run(Both, Empty, 6, None), nodes[5]) == Run(Both, Empty, 7, None);
    ExtractTurn(Run(Both, Empty, 6, None), nodes, 5);
  }

  /** The dependent noun 物 is IGNORE, although a noun. */
  lemma Turn6(nodes: seq<Morpheme>)
    requires ShapedLikeSentence(nodes)
    ensures Extract(Run(Both, Empty, 7, None), nodes[6..]) == Extract(Run(Both, Empty, 8, None), nodes[7..])
  {
    assert nodes[6].surface == SurfaceForms[6] && Pad(nodes[6]) == 0;
    assert GetCondition(nodes[6].feature, None) == Ok(Tags[6]);
    assert Step(Run(Both, Empty, 7, None), nodes[6]) == Run(Both, Empty, 8, None);
    ExtractTurn(Run(Both, Empty, 7, None), nodes, 6);
  }

  /** The particle を is IGNORE. */
  lemma Turn7(nodes: seq<Morpheme>)
    requires ShapedLikeSentence(nodes)
    ensures Extract(Run(Both, Empty, 8, None), nodes[7..]) == Extract(Run(Both, Empty, 9, None), nodes[8..])
  {
    assert nodes[7].surface == SurfaceForms[7] && Pad(nodes[7]) == 0;
    assert GetCondition(nodes[7].feature, None) == Ok(Tags[7]);
    assert Step(Run(Both, Empty, 8, None), nodes[7]) == Run(Both, Empty, 9, None);
    ExtractTurn(Run(Both, Empty, 8, None), nodes, 7);
  }

  /** The verb 選ん is IGNORE (no test matches; the default applies). */
  lemma Turn8(nodes: seq<Morpheme>)
    requires ShapedLikeSentence(nodes)
    ensures Extract(Run(Both, Empty, 9, None), nodes[8..]) == Extract(Run(Both, Empty, 11, None), nodes[9..])
  {
    assert nodes[8].surface == SurfaceForms[8] && Pad(nodes[8]) == 0;
    assert GetCondition(nodes[8].feature, None) == Ok(Tags[8]);
    assert Step(Run(Both, Empty, 9, None), nodes[8]) == Run(Both, Empty, 11, None);
    ExtractTurn(Run(Both, Empty, 9, None), nodes, 8);
  }

  /** The particle で is IGNORE. */
  lemma Turn9(nodes: seq<Morpheme>)
    requires ShapedLikeSentence(nodes)
    ensures Extract(Run(Both, Empty, 11, None), nodes[9..]) == Extract(Run(Both, Empty, 12, None), nodes[10..])
  {
    assert nodes[9].surface == SurfaceForms[9] && Pad(nodes[9]) == 0;
    assert GetCondition(nodes[9].feature, None) == Ok(Tags[9]);
    assert Step(Run(Both, Empty, 11, None), nodes[9]) == Run(Both, Empty, 12, None);
    ExtractTurn(Run(Both, Empty, 11, None), nodes, 9);
  }

  /** The dependent verb ください is IGNORE. */
  lemma Turn10(nodes: seq<Morpheme>)
    requires ShapedLikeSentence(nodes)
    ensures Extract(Run(Both, Empty, 12, None), nodes[10..]) == Extract(Run(Both, Empty, 16, None), nodes[11..])
  {
    assert nodes[10].surface == SurfaceForms[10] && Pad(nodes[10]) == 0;
    assert GetCondition(nodes[10].feature, None) == Ok(Tags[10]);
    assert Step(Run(Both, Empty, 12, None), nodes[10]) == Run(Both, Empty, 16, None);
    ExtractTurn(Run(Both, Empty, 12, None), nodes, 10);
  }

  /** The full stop is IGNORE (no test matches). */
  lemma Turn11(nodes: seq<Morpheme>)
    requires ShapedLikeSentence(nodes)
    ensures Extract(Run(Both, Empty, 16, None), nodes[11..]) == Extract(Run(Both, Empty, 17, None), nodes[12..])
  {
    assert nodes[11].surface == SurfaceForms[11] && Pad(nodes[11]) == 0;
    assert GetCondition(nodes[11].feature, None) == Ok(Tags[11]);
    assert Step(Run(Both, Empty, 16, None), nodes[11]) == Run(Both, Empty, 17, None);
    ExtractTurn(Run(Both, Empty, 16, None), nodes, 11);
  }

  /** The closing BOS/EOS sentinel is IGNORE, with nothing left to flush. */
  lemma Turn12(nodes: seq<Morpheme>)
    requires ShapedLikeSentence(nodes)
    ensures Extract(Run(Both, Empty, 17, None), nodes[12..]) == Extract(Run(Both, Empty, 17, None), nodes[13..])
  {
    assert nodes[12].surface == SurfaceForms[12] && Pad(nodes[12]) == 0;
    assert GetCondition(nodes[12].feature, None) == Ok(Tags[12]);
    assert Step(Run(Both, Empty, 17, None), nodes[12]) == Run(Both, Empty, 17, None);
    ExtractTurn(Run(Both, Empty, 17, None), nodes, 12);
  }

  /** The first seven turns: the number word and the adjectival noun are out. */
  lemma OpeningTurns(nodes: seq<Morpheme>)
    requires ShapedLikeSentence(nodes)
    ensures Extract(Start, nodes) == Extract(Run(Both, Empty, 8, None), nodes[7..])
  {
    Turn0(nodes);
    Turn1(nodes);
    Turn2(nodes);
    Turn3(nodes);
    Turn4(nodes);
    Turn5(nodes);
    Turn6(nodes);
    assert nodes[0..] == nodes;
  }

  /** The last six turns emit nothing, and the closing sentinel leaves the buffer empty. */
  lemma ClosingTurns(nodes: seq<Morpheme>)
    requires ShapedLikeSentence(nodes)
    ensures Extract(Run(Both, Empty, 8, None), nodes[7..]) == Run(Both, Empty, 17, None)
  {
    Turn7(nodes);
    Turn8(nodes);
    Turn9(nodes);
    Turn10(nodes);
    Turn11(nodes);
    Turn12(nodes);
    assert nodes[13..] == [];
  }

  /** Any morpheme chain shaped like the sentence yields the two expected words. */
  lemma SentenceShapeYields(nodes: seq<Morpheme>)
    requires ShapedLikeSentence(nodes)
    ensures Extract(Start, nodes) == Run(Both, Empty, 17, None)
  {
    OpeningTurns(nodes);
    ClosingTurns(nodes);
  }

  /** The classifier's verdict on the leading fields of each morpheme. */
  lemma SentenceTags(rest: seq<string>)
    requires |rest| == 13
    ensures forall k :: 0 <= k < 13 ==> GetCondition(Sentence(rest)[k].feature, None) == Ok(Tags[k])
  {
    var nodes := Sentence(rest);
    forall k | 0 <= k < 13
      ensures GetCondition(nodes[k].feature, None) == Ok(Tags[k])
    {
      assert ',' !in Classes[k] && ',' !in SubClasses[k];
      ClassifyLeadingFields(Classes[k], SubClasses[k], Some(rest[k]), None);
      assert Classify([Classes[k], SubClasses[k]], None) == Ok(Tags[k]);
    }
  }

  /** The unit test's expectation: exactly ("2番目", 0) then ("重要", 4), and no error. */
  lemma TestSentence(rest: seq<string>)
    requires |rest| == 13
    ensures Extract(Start, Sentence(rest)) == Run(Both, Empty, 17, None)
  {
    SentenceTags(rest);
    SentenceShapeYields(Sentence(rest));
  }
}

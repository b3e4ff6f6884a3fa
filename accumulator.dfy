/**
 * The word accumulator of `FeatureManager`: the list `words` of surface
 * fragments of the word being built and the anchor `location`, the offset
 * of its first fragment (None while nothing is buffered).
 */
module Accumulator {
  import opened Wrappers
  import opened Features

  /** A word handed out by `get`: the joined fragments with the anchor. */
  datatype Word = Word(text: string, location: Option<int>)

  /** The accumulator's state as a value. */
  datatype Buffer = Buffer(words: seq<string>, location: Option<int>)

  const Empty := Buffer([], None)

  /** The accumulator's invariant: the anchor is set exactly when something is buffered. */
  predicate Anchored(b: Buffer) {
    b.location.None? <==> b.words == []
  }

  /** `"".join(words)` */
  function Concat(words: seq<string>): string {
    if words == [] then "" else words[0] + Concat(words[1..])
  }

  lemma {:induction false} ConcatAppend(words: seq<string>, w: string)
    ensures Concat(words + [w]) == Concat(words) + w
  {
    if words != [] {
      assert (words + [w])[1..] == words[1..] + [w];
      ConcatAppend(words[1..], w);
    } else {
      assert Concat([w]) == w + Concat([]);
    }
  }

  /** Joining fragments that are all non-empty gives the empty string only for no fragments. */
  lemma {:induction false} ConcatNonEmpty(words: seq<string>)
    requires forall k :: 0 <= k < |words| ==> words[k] != ""
    ensures Concat(words) == "" <==> words == []
  {
    if words != [] {
      assert words[0] != "";
    }
  }

  /**
   * `_put` on a value: append the fragment, set the anchor if this is the
   * first fragment, and report whether the fragment was a STOP.
   */
  function Append(b: Buffer, word: string, at: int, condition: Condition): (r: (Buffer, bool))
    ensures r.0.words == b.words + [word]
    ensures Anchored(r.0)
    ensures b.location.Some? ==> r.0.location == b.location
    ensures b.location.None? ==> r.0.location == Some(at)
    ensures r.1 <==> condition == Stop
  {
    var anchor := if b.location.None? then Some(at) else b.location;
    (Buffer(b.words + [word], anchor), condition == Stop)
  }

  /**
   * `put` on a value: classify the feature (default IGNORE); an IGNORE
   * morpheme leaves the buffer alone and reports whether a word is
   * pending, any other is appended.  A classification error propagates
   * before anything changes.
   */
  function Offer(b: Buffer, word: string, at: int, feature: string): (r: Result<(Buffer, bool), Error>)
    ensures r.Err? <==> GetCondition(feature, None).Err?
    ensures GetCondition(feature, None) == Ok(Ignore) ==> r == Ok((b, b.words != []))
    ensures GetCondition(feature, None).Ok? && GetCondition(feature, None) != Ok(Ignore)
            ==> r == Ok(Append(b, word, at, GetCondition(feature, None).value))
    ensures r.Ok? && r.value.1 ==> r.value.0.words != []
    ensures r.Ok? && Anchored(b) ==> Anchored(r.value.0)
  {
    match GetCondition(feature, None)
    case Err(e) => Err(e)
    case Ok(condition) =>
      if condition == Ignore then Ok((b, |b.words| > 0))
      else Ok(Append(b, word, at, condition))
  }

  /** `get` on a value: the joined fragments with their anchor, and an emptied buffer. */
  function Take(b: Buffer): (r: (Word, Buffer))
    ensures r.1 == Empty && Anchored(r.1)
    ensures r.0.location == b.location
    ensures Anchored(b) && b.words != [] ==> r.0.location.Some?
    ensures r.0.text == Concat(b.words)
  {
    (Word(Concat(b.words), b.location), Empty)
  }

  /** The accumulator object itself, updated in place. */
  class FeatureManager {
    var words: seq<string>
    var location: Option<int>

    ghost predicate Valid()
      reads this
    {
      Anchored(Buffer(words, location))
    }

    function Snapshot(): (b: Buffer)
      reads this
      ensures b.words == words && b.location == location
    {
      Buffer(words, location)
    }

    constructor ()
      ensures words == [] && location == None
      ensures Valid()
    {
      words := [];
      location := None;
    }

    /** put(word, location, feature) */
    method Put(word: string, at: int, feature: string) returns (r: Result<bool, Error>)
      modifies this
      ensures old(Valid()) ==> Valid()
      ensures match GetCondition(feature, None)
        case Err(e) =>
          r == Err(e) && words == old(words) && location == old(location)
        case Ok(Ignore) =>
          r == Ok(old(words) != []) && words == old(words) && location == old(location)
        case Ok(condition) =>
          && r == Ok(condition == Stop)
          && words == old(words) + [word]
          && location == (if old(location).None? then Some(at) else old(location))
      ensures r == Ok(true) ==> words != []
      ensures r.Ok? ==> Offer(old(Snapshot()), word, at, feature) == Ok((Snapshot(), r.value))
      ensures r.Err? ==> Offer(old(Snapshot()), word, at, feature) == Err(r.error)
    {
      match GetCondition(feature, None)
      case Err(e) =>
        r := Err(e);
      case Ok(condition) =>
        if condition == Ignore {
          r := Ok(|words| > 0);
        } else {
          var stop := PutFragment(word, at, condition);
          r := Ok(stop);
        }
    }

    /** _put(word, location, condition) */
    method PutFragment(word: string, at: int, condition: Condition) returns (stop: bool)
      modifies this
      ensures words == old(words) + [word]
      ensures location == if old(location).None? then Some(at) else old(location)
      ensures stop <==> condition == Stop
      ensures Valid()
    {
      if location.None? {
        location := Some(at);
      }
      words := words + [word];
      stop := condition == Stop;
    }

    /** get(): returns the joined word and its anchor, then clears. */
    method Get() returns (word: string, at: Option<int>)
      modifies this
      ensures word == Concat(old(words)) && at == old(location)
      ensures words == [] && location == None
      ensures Valid()
      ensures Take(old(Snapshot())) == (Word(word, at), Snapshot())
    {
      word := Concat(words);
      at := location;
      Clear();
    }

    /** clear() */
    method Clear()
      modifies this
      ensures words == [] && location == None
      ensures Valid()
    {
      words := [];
      location := None;
    }
  }
}

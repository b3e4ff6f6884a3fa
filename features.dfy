/**
 * The part-of-speech classifier of `FeatureManager`: a feature string such as
 * "名詞,数,*,*" is split on ',' and mapped to IGNORE, STOP or CONTINUITY.
 */
module Features {
  import opened Wrappers

  /** The three state values IGNORE (0), STOP (1) and CONTINUITY (2). */
  datatype Condition = Ignore | Stop | Continuity

  /** The exception a classification can raise: a test read a field the feature does not have. */
  datatype Error = MissingField(index: nat)

  // The part-of-speech names the tests compare against.
  const BosEos := "BOS/EOS"
  const PrefixTag := "接頭詞"
  const ParticleTag := "助詞"
  const NounTag := "名詞"
  const NumeralTag := "数"
  const SuffixTag := "接尾"
  const DependentTag := "非自立"

  // ---------------------------------------------------------------------
  // str.split(',')
  // ---------------------------------------------------------------------

  predicate CommaFree(fields: seq<string>) {
    forall i :: 0 <= i < |fields| ==> ',' !in fields[i]
  }

  /** Python's `s.split(',')`: never empty, "" gives [""], "a,,b" gives ["a", "", "b"]. */
  function Split(s: string): (fields: seq<string>)
    ensures |fields| >= 1
    ensures CommaFree(fields)
  {
    if s == [] then [""]
    else
      var rest := Split(s[1..]);
      if s[0] == ',' then [""] + rest
      else [[s[0]] + rest[0]] + rest[1..]
  }

  /** `','.join(fields)`, the inverse of `Split`. */
  function Join(fields: seq<string>): string
    requires |fields| >= 1
  {
    if |fields| == 1 then fields[0] else fields[0] + "," + Join(fields[1..])
  }

  lemma {:induction false} JoinSplit(s: string)
    ensures Join(Split(s)) == s
  {
    if s != [] {
      JoinSplit(s[1..]);
      var rest := Split(s[1..]);
      if s[0] == ',' {
        assert Split(s) == [""] + rest;
        assert ([""] + rest)[1..] == rest;
      } else {
        var fields := [[s[0]] + rest[0]] + rest[1..];
        assert fields[1..] == rest[1..];
        if |rest| == 1 {
          assert Join(fields) == [s[0]] + rest[0];
        } else {
          assert Join(rest) == rest[0] + "," + Join(rest[1..]);
        }
      }
    }
  }

  /** Splitting a comma-free word followed by ',' and more text peels the word off. */
  lemma {:induction false} SplitWord(w: string, tail: Option<string>)
    requires ',' !in w
    ensures tail.None? ==> Split(w) == [w]
    ensures tail.Some? ==> Split(w + "," + tail.value) == [w] + Split(tail.value)
  {
    if w != [] {
      SplitWord(w[1..], tail);
      assert w[0] != ',' && [w[0]] + w[1..] == w;
      if tail.Some? {
        var u := w + "," + tail.value;
        assert u[0] == w[0] && u[1..] == w[1..] + "," + tail.value;
      }
    } else if tail.Some? {
      assert "" + "," + tail.value == [','] + tail.value;
    }
  }

  lemma {:induction false} SplitJoin(fields: seq<string>)
    requires |fields| >= 1 && CommaFree(fields)
    ensures Split(Join(fields)) == fields
  {
    if |fields| == 1 {
      SplitWord(fields[0], None);
    } else {
      SplitJoin(fields[1..]);
      SplitWord(fields[0], Some(Join(fields[1..])));
      assert [fields[0]] + fields[1..] == fields;
    }
  }

  /** A feature string has one field exactly when it holds no comma. */
  lemma {:induction false} SplitSingle(s: string)
    ensures |Split(s)| == 1 <==> ',' !in s
    ensures ',' !in s ==> Split(s) == [s]
  {
    if ',' !in s {
      SplitWord(s, None);
    } else if s[0] != ',' {
      SplitSingle(s[1..]);
    }
  }

  // ---------------------------------------------------------------------
  // The is_* tests, on the list of fields
  // ---------------------------------------------------------------------

  /** is_end: the sentence-boundary sentinel of the tagger. */
  predicate IsEnd(fields: seq<string>) requires |fields| >= 1 {
    fields[0] == BosEos
  }

  /** is_prefix */
  predicate IsPrefix(fields: seq<string>) requires |fields| >= 1 {
    fields[0] == PrefixTag
  }

  /** is_pp_particle */
  predicate IsPpParticle(fields: seq<string>) requires |fields| >= 1 {
    fields[0] == ParticleTag
  }

  /** is_noun */
  predicate IsNoun(fields: seq<string>) requires |fields| >= 1 {
    fields[0] == NounTag
  }

  /** is_postfix: reads the second field only for a noun (Python's `and` short-circuits). */
  predicate IsPostfix(fields: seq<string>)
    requires |fields| >= 1 && (IsNoun(fields) ==> |fields| >= 2)
    ensures IsPostfix(fields) ==> IsNoun(fields) && |fields| >= 2
  {
    IsNoun(fields) && fields[1] == SuffixTag
  }

  /** is_number: reads the second field. */
  predicate IsNumber(fields: seq<string>) requires |fields| >= 2 {
    fields[1] == NumeralTag
  }

  /** is_substantive: reads the second field. */
  predicate IsSubstantive(fields: seq<string>) requires |fields| >= 2 {
    fields[1] == DependentTag
  }

  // ---------------------------------------------------------------------
  // get_condition
  // ---------------------------------------------------------------------

  /**
   * The tests of get_condition as one if-chain in their fixed order:
   * continuity (prefix, number), ignore (end, particle, substantive),
   * stop (postfix, noun), then the default, which is IGNORE when absent.
   * is_number is the first test that reads the second field, so a
   * one-field feature that is not a prefix raises there.
   */
  function Classify(fields: seq<string>, default: Option<Condition>): (r: Result<Condition, Error>)
    requires |fields| >= 1
    ensures r.Err? <==> |fields| < 2 && !IsPrefix(fields)
    ensures r.Err? ==> r.error == MissingField(1)
  {
    if IsPrefix(fields) then Ok(Continuity)
    else if |fields| < 2 then Err(MissingField(1))
    else if IsNumber(fields) then Ok(Continuity)
    else if IsEnd(fields) || IsPpParticle(fields) || IsSubstantive(fields) then Ok(Ignore)
    else if IsPostfix(fields) || IsNoun(fields) then Ok(Stop)
    else if default.None? then Ok(Ignore)
    else Ok(default.value)
  }

  /** `get_condition(feature, default)`: split the feature string, then classify. */
  function GetCondition(feature: string, default: Option<Condition>): (r: Result<Condition, Error>)
    ensures r.Err? <==> ',' !in feature && feature != PrefixTag
    ensures r.Err? ==> r.error == MissingField(1)
  {
    SplitSingle(feature);
    Classify(Split(feature), default)
  }

  // ---------------------------------------------------------------------
  // The same classifier as the source writes it: three lists of tests,
  // scanned in order, the first test that holds deciding.
  // ---------------------------------------------------------------------

  datatype Test = End | Prefix | Postfix | PpParticle | Noun | Number | Substantive

  const IgnoreTests: seq<Test> := [End, PpParticle, Substantive]
  const ContinuityTests: seq<Test> := [Prefix, Number]
  const StopTests: seq<Test> := [Postfix, Noun]

  /** Runs one test; a test that indexes a missing field raises. */
  function Apply(test: Test, fields: seq<string>): Result<bool, Error>
    requires |fields| >= 1
  {
    match test
    case End => Ok(IsEnd(fields))
    case Prefix => Ok(IsPrefix(fields))
    case PpParticle => Ok(IsPpParticle(fields))
    case Noun => Ok(IsNoun(fields))
    case Postfix =>
      if IsNoun(fields) && |fields| < 2 then Err(MissingField(1)) else Ok(IsPostfix(fields))
    case Number => if |fields| < 2 then Err(MissingField(1)) else Ok(IsNumber(fields))
    case Substantive => if |fields| < 2 then Err(MissingField(1)) else Ok(IsSubstantive(fields))
  }

  /** `for method in tests: if method(features): return True`, exceptions propagating. */
  function AnyHolds(tests: seq<Test>, fields: seq<string>): (r: Result<bool, Error>)
    requires |fields| >= 1
    ensures r == Ok(false) <==> forall i :: 0 <= i < |tests| ==> Apply(tests[i], fields) == Ok(false)
    ensures r == Ok(true) <==>
      exists i :: 0 <= i < |tests| && Apply(tests[i], fields) == Ok(true)
                  && forall j :: 0 <= j < i ==> Apply(tests[j], fields) == Ok(false)
  {
    if tests == [] then Ok(false)
    else match Apply(tests[0], fields)
      case Err(e) => Err(e)
      case Ok(true) => Ok(true)
      case Ok(false) => AnyHolds(tests[1..], fields)
  }

  /** get_condition's three loops, continuity first, then ignore, then stop. */
  function Dispatch(fields: seq<string>, default: Option<Condition>): Result<Condition, Error>
    requires |fields| >= 1
  {
    var fallback := if default.None? then Ignore else default.value;
    match AnyHolds(ContinuityTests, fields)
    case Err(e) => Err(e)
    case Ok(true) => Ok(Continuity)
    case Ok(false) =>
      match AnyHolds(IgnoreTests, fields)
      case Err(e) => Err(e)
      case Ok(true) => Ok(Ignore)
      case Ok(false) =>
        match AnyHolds(StopTests, fields)
        case Err(e) => Err(e)
        case Ok(true) => Ok(Stop)
        case Ok(false) => Ok(fallback)
  }

  /** The if-chain and the table-driven scan agree on every input, errors included. */
  lemma ClassifyIsDispatch(fields: seq<string>, default: Option<Condition>)
    requires |fields| >= 1
    ensures Classify(fields, default) == Dispatch(fields, default)
  {
    assert ContinuityTests[1..] == [Number] && IgnoreTests[1..] == [PpParticle, Substantive];
    assert IgnoreTests[1..][1..] == [Substantive] && StopTests[1..] == [Noun];
    assert [Number][1..] == [] && [Substantive][1..] == [] && [Noun][1..] == [];
    assert AnyHolds([], fields) == Ok(false);
    if |fields| < 2 {
      assert AnyHolds([Number], fields) == Err(MissingField(1));
    } else {
      assert AnyHolds([Number], fields) == Ok(IsNumber(fields));
      assert AnyHolds([Substantive], fields) == Ok(IsSubstantive(fields));
      assert AnyHolds([PpParticle, Substantive], fields) == Ok(IsPpParticle(fields) || IsSubstantive(fields));
      assert AnyHolds([Noun], fields) == Ok(IsNoun(fields));
    }
  }

  /** is_postfix is subsumed by is_noun: dropping it from the stop list changes nothing. */
  lemma PostfixSubsumed(fields: seq<string>)
    requires |fields| >= 1
    ensures AnyHolds(StopTests, fields).Ok? ==> AnyHolds(StopTests, fields) == AnyHolds([Noun], fields)
    ensures |fields| >= 2 ==> AnyHolds(StopTests, fields) == AnyHolds([Noun], fields)
  {
    assert StopTests[1..] == [Noun] && [Noun][1..] == [];
  }

  // ---------------------------------------------------------------------
  // Properties of get_condition on the feature string itself
  // ---------------------------------------------------------------------

  /** Classifying a feature string built from comma-free fields classifies those fields. */
  lemma {:induction false} ClassifyJoin(fields: seq<string>, default: Option<Condition>)
    requires |fields| >= 1 && CommaFree(fields)
    ensures GetCondition(Join(fields), default) == Classify(fields, default)
  {
    SplitJoin(fields);
  }

  /**
   * Only the first two fields matter: a feature string with two or more
   * fields is classified by its word class and sub-class alone.
   */
  lemma {:induction false} ClassifyLeadingFields(w0: string, w1: string, rest: Option<string>, default: Option<Condition>)
    requires ',' !in w0 && ',' !in w1
    ensures rest.None? ==> GetCondition(w0 + "," + w1, default) == Classify([w0, w1], default)
    ensures rest.Some? ==> GetCondition(w0 + "," + w1 + "," + rest.value, default) == Classify([w0, w1], default)
  {
    var f := if rest.None? then Split(w0 + "," + w1) else Split(w0 + "," + w1 + "," + rest.value);
    if rest.None? {
      SplitWord(w1, None);
      SplitWord(w0, Some(w1));
      assert f == [w0] + [w1];
    } else {
      var t := w1 + "," + rest.value;
      SplitWord(w1, rest);
      SplitWord(w0, Some(t));
      assert w0 + "," + w1 + "," + rest.value == w0 + "," + t;
      assert f == [w0] + ([w1] + Split(rest.value));
    }
    ClassifyFirstTwo(f, [w0, w1], default);
  }

  /** Classify reads the first two fields and whether there are at least two. */
  lemma ClassifyFirstTwo(f: seq<string>, g: seq<string>, default: Option<Condition>)
    requires |f| >= 2 && |g| >= 2 && f[0] == g[0] && f[1] == g[1]
    ensures Classify(f, default) == Classify(g, default)
  {
  }

  /** Continuity wins: a prefix or a numeral is CONTINUITY whatever else holds, and nothing else is (default aside). */
  lemma {:induction false} ContinuityWins(fields: seq<string>, default: Option<Condition>)
    requires |fields| >= 1 && CommaFree(fields)
    ensures IsPrefix(fields) || (|fields| >= 2 && IsNumber(fields))
            ==> GetCondition(Join(fields), default) == Ok(Continuity)
    ensures GetCondition(Join(fields), default) == Ok(Continuity) && default != Some(Continuity)
            ==> IsPrefix(fields) || (|fields| >= 2 && IsNumber(fields))
  {
    ClassifyJoin(fields, default);
    var c := Classify(fields, default);
    if !IsPrefix(fields) && |fields| >= 2 && !IsNumber(fields) {
      assert c == Ok(Continuity) ==> default == Some(Continuity);
    }
  }

  /** Ignore beats stop: the sentinel, a particle or a dependent form is IGNORE, even under 名詞. */
  lemma {:induction false} IgnoreBeatsStop(fields: seq<string>, default: Option<Condition>)
    requires |fields| >= 2 && CommaFree(fields)
    requires !IsPrefix(fields) && !IsNumber(fields)
    requires IsEnd(fields) || IsPpParticle(fields) || IsSubstantive(fields)
    ensures GetCondition(Join(fields), default) == Ok(Ignore)
  {
    ClassifyJoin(fields, default);
  }

  /** STOP holds exactly for a noun that no earlier test claimed (when the default is not STOP). */
  lemma {:induction false} StopExactly(fields: seq<string>, default: Option<Condition>)
    requires |fields| >= 1 && CommaFree(fields) && default != Some(Stop)
    ensures GetCondition(Join(fields), default) == Ok(Stop)
            <==> |fields| >= 2 && IsNoun(fields) && !IsNumber(fields) && !IsSubstantive(fields)
  {
    ClassifyJoin(fields, default);
  }

  /** No test matches: the default, and IGNORE when none is given. */
  lemma {:induction false} DefaultOtherwise(fields: seq<string>, default: Option<Condition>)
    requires |fields| >= 2 && CommaFree(fields)
    requires !IsPrefix(fields) && !IsNumber(fields) && !IsEnd(fields)
    requires !IsPpParticle(fields) && !IsSubstantive(fields) && !IsNoun(fields)
    ensures default.None? ==> GetCondition(Join(fields), default) == Ok(Ignore)
    ensures default.Some? ==> GetCondition(Join(fields), default) == Ok(default.value)
  {
    ClassifyJoin(fields, default);
  }
}

/**
 * Instrument-type classification of a run ID (the last path component of a
 * run directory): the MiSeq pattern is tried first, then the NextSeq pattern,
 * each with `re.match`, i.e. as a prefix match. When neither matches the type
 * stays Python's `None`.
 */
module RunClassifier {
  import opened PrefixRegex

  /** `instrument_type`: `None` until a pattern matches. */
  datatype InstrumentType = None | MiSeq | NextSeq {
    /** How the type appears when formatted into the command line. */
    function Text(): (t: string)
      ensures t != []
    {
      match this
      case None => "None"
      case MiSeq => "miseq"
      case NextSeq => "nextseq"
    }
  }

  /** `\d{6}_M\d{5}_\d+_\d{9}-[A-Z0-9]{5}` */
  const MiSeqPattern: seq<Elem> :=
    [Repeat(Digit, 6), Lit('_'), Lit('M'), Repeat(Digit, 5), Lit('_'),
     Plus(Digit), Lit('_'), Repeat(Digit, 9), Lit('-'), Repeat(UpperAlnum, 5)]

  /** `\d{6}_VH\d{5}_\d+_[A-Z0-9]{9}` */
  const NextSeqPattern: seq<Elem> :=
    [Repeat(Digit, 6), Lit('_'), Lit('V'), Lit('H'), Repeat(Digit, 5), Lit('_'),
     Plus(Digit), Lit('_'), Repeat(UpperAlnum, 9)]

  /** Classify a run ID: MiSeq if its prefix matches the MiSeq pattern, else NextSeq if that one matches. */
  function Classify(runId: string): (t: InstrumentType)
    ensures t == MiSeq <==> PrefixMatches(MiSeqPattern, runId)
    ensures t == NextSeq <==> !PrefixMatches(MiSeqPattern, runId) && PrefixMatches(NextSeqPattern, runId)
    ensures t == None <==> !PrefixMatches(MiSeqPattern, runId) && !PrefixMatches(NextSeqPattern, runId)
  {
    PatternsWellFormed();
    MatchCorrect(MiSeqPattern, 0, runId, 0);
    MatchCorrect(NextSeqPattern, 0, runId, 0);
    if Match(MiSeqPattern, 0, runId, 0) then MiSeq
    else if Match(NextSeqPattern, 0, runId, 0) then NextSeq
    else None
  }

  lemma PatternsWellFormed()
    ensures WellFormed(MiSeqPattern) && WellFormed(NextSeqPattern)
  {
    var p, q := MiSeqPattern, NextSeqPattern;
    forall k | 0 <= k < |p| && p[k].Plus?
      ensures k + 1 < |p| && p[k + 1].Repeat? && p[k + 1].cls.Char? && p[k + 1].count >= 1
              && !InClass(p[k].cls, p[k + 1].cls.c)
    {
      assert k == 0 || k == 1 || k == 2 || k == 3 || k == 4 || k == 5 || k == 6 || k == 7 || k == 8 || k == 9;
    }
    forall k | 0 <= k < |q| && q[k].Plus?
      ensures k + 1 < |q| && q[k + 1].Repeat? && q[k + 1].cls.Char? && q[k + 1].count >= 1
              && !InClass(q[k].cls, q[k + 1].cls.c)
    {
      assert k == 0 || k == 1 || k == 2 || k == 3 || k == 4 || k == 5 || k == 6 || k == 7 || k == 8;
    }
  }

  // An independent, positional reading of the two patterns.

  predicate IsDigit(c: char) { '0' <= c <= '9' }

  predicate IsUpperAlnum(c: char) { 'A' <= c <= 'Z' || '0' <= c <= '9' }

  predicate DigitsAt(s: string, lo: nat, hi: nat)
    requires lo <= hi <= |s|
  {
    forall p :: lo <= p < hi ==> IsDigit(s[p])
  }

  predicate UpperAlnumAt(s: string, lo: nat, hi: nat)
    requires lo <= hi <= |s|
  {
    forall p :: lo <= p < hi ==> IsUpperAlnum(s[p])
  }

  /**
   * `s` starts with: 6 digits, `_M`, 5 digits, `_`, a run counter of `k >= 1`
   * digits, `_`, 9 digits, `-`, 5 characters from [A-Z0-9].
   */
  predicate MiSeqShape(s: string, k: nat) {
    1 <= k && 30 + k <= |s|
    && DigitsAt(s, 0, 6) && s[6] == '_' && s[7] == 'M' && DigitsAt(s, 8, 13) && s[13] == '_'
    && DigitsAt(s, 14, 14 + k) && s[14 + k] == '_'
    && DigitsAt(s, 15 + k, 24 + k) && s[24 + k] == '-' && UpperAlnumAt(s, 25 + k, 30 + k)
  }

  /**
   * `s` starts with: 6 digits, `_VH`, 5 digits, `_`, a run counter of `k >= 1`
   * digits, `_`, 9 characters from [A-Z0-9].
   */
  predicate NextSeqShape(s: string, k: nat) {
    1 <= k && 25 + k <= |s|
    && DigitsAt(s, 0, 6) && s[6] == '_' && s[7] == 'V' && s[8] == 'H' && DigitsAt(s, 9, 14) && s[14] == '_'
    && DigitsAt(s, 15, 15 + k) && s[15 + k] == '_' && UpperAlnumAt(s, 16 + k, 25 + k)
  }

  lemma MiSeqPatternShape(s: string)
    ensures PrefixMatches(MiSeqPattern, s) <==> exists k :: MiSeqShape(s, k)
  {
    if PrefixMatches(MiSeqPattern, s) {
      var k := MiSeqShapeOfMatch(s);
    }
    if k :| MiSeqShape(s, k) {
      MiSeqMatchOfShape(s, k);
    }
  }

  lemma MiSeqShapeOfMatch(s: string) returns (k: nat)
    requires PrefixMatches(MiSeqPattern, s)
    ensures MiSeqShape(s, k)
  {
    MiSeqHead(s);
    var j :| 14 < j <= |s| && AllInRange(Digit, s, 14, j) && MatchesFrom(MiSeqPattern, 6, s, j);
    k := j - 14;
    MiSeqTail(s, j);
    DigitRun(s, 14, j);
  }

  lemma MiSeqMatchOfShape(s: string, k: nat)
    requires MiSeqShape(s, k)
    ensures PrefixMatches(MiSeqPattern, s)
  {
    MiSeqHead(s);
    MiSeqTail(s, 14 + k);
    DigitRun(s, 14, 14 + k);
  }

  /** The elements before `\d+` of the MiSeq pattern, position by position. */
  lemma MiSeqHead(s: string)
    ensures PrefixMatches(MiSeqPattern, s) <==>
      14 <= |s| && DigitsAt(s, 0, 6) && s[6] == '_' && s[7] == 'M' && DigitsAt(s, 8, 13) && s[13] == '_'
      && MatchesFrom(MiSeqPattern, 5, s, 14)
  {
    if 14 <= |s| {
      DigitRun(s, 0, 6);
      DigitRun(s, 8, 13);
    }
  }

  /** The elements after `\d+` of the MiSeq pattern, from position `j`. */
  lemma MiSeqTail(s: string, j: nat)
    ensures MatchesFrom(MiSeqPattern, 6, s, j) <==>
      j + 16 <= |s| && s[j] == '_' && DigitsAt(s, j + 1, j + 10) && s[j + 10] == '-'
      && UpperAlnumAt(s, j + 11, j + 16)
  {
    if j + 16 <= |s| {
      DigitRun(s, j + 1, j + 10);
      UpperAlnumRun(s, j + 11, j + 16);
    }
  }

  lemma DigitRun(s: string, lo: nat, hi: nat)
    requires lo <= hi <= |s|
    ensures AllInRange(Digit, s, lo, hi) <==> DigitsAt(s, lo, hi)
  {
  }

  lemma UpperAlnumRun(s: string, lo: nat, hi: nat)
    requires lo <= hi <= |s|
    ensures AllInRange(UpperAlnum, s, lo, hi) <==> UpperAlnumAt(s, lo, hi)
  {
  }

  lemma NextSeqPatternShape(s: string)
    ensures PrefixMatches(NextSeqPattern, s) <==> exists k :: NextSeqShape(s, k)
  {
    if PrefixMatches(NextSeqPattern, s) {
      var k := NextSeqShapeOfMatch(s);
    }
    if k :| NextSeqShape(s, k) {
      NextSeqMatchOfShape(s, k);
    }
  }

  lemma NextSeqShapeOfMatch(s: string) returns (k: nat)
    requires PrefixMatches(NextSeqPattern, s)
    ensures NextSeqShape(s, k)
  {
    NextSeqHead(s);
    var j :| 15 < j <= |s| && AllInRange(Digit, s, 15, j) && MatchesFrom(NextSeqPattern, 7, s, j);
    k := j - 15;
    NextSeqTail(s, j);
    DigitRun(s, 15, j);
  }

  lemma NextSeqMatchOfShape(s: string, k: nat)
    requires NextSeqShape(s, k)
    ensures PrefixMatches(NextSeqPattern, s)
  {
    NextSeqHead(s);
    NextSeqTail(s, 15 + k);
    DigitRun(s, 15, 15 + k);
  }

  /** The elements before `\d+` of the NextSeq pattern, position by position. */
  lemma NextSeqHead(s: string)
    ensures PrefixMatches(NextSeqPattern, s) <==>
      15 <= |s| && DigitsAt(s, 0, 6) && s[6] == '_' && s[7] == 'V' && s[8] == 'H' && DigitsAt(s, 9, 14)
      && s[14] == '_' && MatchesFrom(NextSeqPattern, 6, s, 15)
  {
    if 15 <= |s| {
      DigitRun(s, 0, 6);
      DigitRun(s, 9, 14);
    }
  }

  /** The elements after `\d+` of the NextSeq pattern, from position `j`. */
  lemma NextSeqTail(s: string, j: nat)
    ensures MatchesFrom(NextSeqPattern, 7, s, j) <==>
      j + 10 <= |s| && s[j] == '_' && UpperAlnumAt(s, j + 1, j + 10)
  {
    if j + 10 <= |s| {
      UpperAlnumRun(s, j + 1, j + 10);
    }
  }

  /** No run ID has both shapes: character 7 is `M` in one and `V` in the other. */
  lemma ShapesExclusive(s: string, k1: nat, k2: nat)
    ensures !(MiSeqShape(s, k1) && NextSeqShape(s, k2))
  {
  }

  /** `miseq` exactly for the run IDs that start with the MiSeq layout. */
  lemma ClassifyMiSeq(runId: string)
    ensures Classify(runId) == MiSeq <==> exists k :: MiSeqShape(runId, k)
  {
    MiSeqPatternShape(runId);
  }

  /**
   * `nextseq` exactly for the run IDs that start with the NextSeq layout; the
   * MiSeq test that runs first never takes one of these away.
   */
  lemma ClassifyNextSeq(runId: string)
    ensures Classify(runId) == NextSeq <==> exists k :: NextSeqShape(runId, k)
  {
    MiSeqPatternShape(runId);
    NextSeqPatternShape(runId);
  }

  /** `instrument_type` stays `None` exactly when neither layout is a prefix. */
  lemma ClassifyNone(runId: string)
    ensures Classify(runId) == None <==>
      (forall k :: !MiSeqShape(runId, k)) && (forall k :: !NextSeqShape(runId, k))
  {
    MiSeqPatternShape(runId);
    NextSeqPatternShape(runId);
  }

  /** A classified run ID keeps its type whatever is appended to it. */
  lemma ClassifyAppend(runId: string, suffix: string)
    requires Classify(runId) != None
    ensures Classify(runId + suffix) == Classify(runId)
  {
    if Classify(runId) == MiSeq {
      MatchesFromExtend(MiSeqPattern, 0, runId, suffix, 0);
    } else {
      MatchesFromExtend(NextSeqPattern, 0, runId, suffix, 0);
      ClassifyNextSeq(runId);
      ClassifyMiSeq(runId + suffix);
    }
  }

  /** Example run IDs of each outcome. */
  lemma ClassifyMiSeqExample()
    ensures Classify("201203_M00325_0123_000000000-A1B2C") == MiSeq
  {
    var id := "201203_M00325_0123_000000000-A1B2C";
    MiSeqExampleHead();
    MiSeqExampleTail();
    assert MiSeqShape(id, 4);
    MiSeqMatchOfShape(id, 4);
  }

  // The MiSeq example's layout, checked in two halves.

  lemma MiSeqExampleHead()
    ensures var id := "201203_M00325_0123_000000000-A1B2C";
      |id| == 34 && DigitsAt(id, 0, 6) && id[6] == '_' && id[7] == 'M' && DigitsAt(id, 8, 13) && id[13] == '_'
  {
  }

  lemma MiSeqExampleTail()
    ensures var id := "201203_M00325_0123_000000000-A1B2C";
      |id| == 34 && DigitsAt(id, 14, 18) && id[18] == '_' && DigitsAt(id, 19, 28) && id[28] == '-'
      && UpperAlnumAt(id, 29, 34)
  {
  }

  lemma ClassifyNextSeqExample()
    ensures Classify("201203_VH00123_0045_AB12CD345") == NextSeq
  {
    var id := "201203_VH00123_0045_AB12CD345";
    assert NextSeqShape(id, 4);
    ClassifyNextSeq(id);
  }

  lemma ClassifyNoneExample()
    ensures Classify("randomfolder") == None
  {
    ClassifyNone("randomfolder");
  }
}

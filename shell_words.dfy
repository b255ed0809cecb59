/**
 * A command line as a string and as its list of words: `Unwords` joins words
 * with single spaces, `Words` splits a string at spaces, dropping empty words.
 * For words that are non-empty and hold no space the two are inverse.
 */
module ShellWords {

  /** The words are usable as arguments: non-empty, without a space. */
  predicate PlainWords(ws: seq<string>) {
    forall k :: 0 <= k < |ws| ==> ws[k] != [] && ' ' !in ws[k]
  }

  function Unwords(ws: seq<string>): string
    decreases |ws|
  {
    if ws == [] then []
    else if |ws| == 1 then ws[0]
    else ws[0] + " " + Unwords(ws[1..])
  }

  /** Length of the leading run of non-space characters. */
  function WordLength(s: string): (n: nat)
    ensures n <= |s|
    ensures ' ' !in s[..n]
    ensures n < |s| ==> s[n] == ' '
  {
    if s == [] || s[0] == ' ' then 0
    else
      var n := 1 + WordLength(s[1..]);
      assert s[..n] == [s[0]] + s[1..][..n - 1];
      n
  }

  function Words(s: string): (ws: seq<string>)
    ensures PlainWords(ws)
    decreases |s|
  {
    if s == [] then []
    else if s[0] == ' ' then Words(s[1..])
    else
      var n := WordLength(s);
      [s[..n]] + Words(s[n..])
  }

  /** Splitting the space-joined words gives the words back. */
  lemma {:induction false} WordsOfUnwords(ws: seq<string>)
    requires PlainWords(ws)
    ensures Words(Unwords(ws)) == ws
    decreases |ws|
  {
    if ws != [] {
      var w := ws[0];
      assert w != [] && ' ' !in w;
      if |ws| == 1 {
        WordLengthOfWord(w, []);
        assert w + [] == w && w[|w|..] == [];
        assert Words(w) == [w] + Words([]);
      } else {
        var rest := Unwords(ws[1..]);
        var s := w + " " + rest;
        assert Unwords(ws) == s;
        WordLengthOfWord(w, " " + rest);
        assert w + (" " + rest) == s;
        assert s[0] == w[0] != ' ';
        assert Words(s) == [w] + Words(s[|w|..]);
        assert s[|w|..] == " " + rest;
        assert (" " + rest)[1..] == rest;
        assert Words(" " + rest) == Words(rest);
        WordsOfUnwords(ws[1..]);
        assert [ws[0]] + ws[1..] == ws;
      }
    }
  }

  lemma {:induction false} WordLengthOfWord(w: string, tail: string)
    requires w != [] && ' ' !in w
    requires tail == [] || tail[0] == ' '
    ensures WordLength(w + tail) == |w| && (w + tail)[..|w|] == w
    decreases |w|
  {
    var s := w + tail;
    assert s[0] == w[0] != ' ';
    if |w| == 1 {
      assert s[1..] == tail;
    } else {
      assert s[1..] == w[1..] + tail;
      WordLengthOfWord(w[1..], tail);
    }
  }

  /** Appending a word appends a space and the word. */
  lemma {:induction false} UnwordsSnoc(ws: seq<string>, w: string)
    requires ws != []
    ensures Unwords(ws + [w]) == Unwords(ws) + " " + w
    decreases |ws|
  {
    if |ws| == 1 {
      assert (ws + [w])[1..] == [w];
    } else {
      assert (ws + [w])[1..] == ws[1..] + [w];
      UnwordsSnoc(ws[1..], w);
    }
  }

  /** The first `k + 1` words joined: the first `k` joined, a space, word `k`. */
  lemma UnwordsPrefixStep(ws: seq<string>, k: nat)
    requires 0 < k < |ws|
    ensures Unwords(ws[..k + 1]) == Unwords(ws[..k]) + " " + ws[k]
  {
    assert ws[..k + 1] == ws[..k] + [ws[k]];
    UnwordsSnoc(ws[..k], ws[k]);
  }

  /** The joins of the first `k` words, each one word longer than the last. */
  lemma UnwordsPrefixes(ws: seq<string>) returns (prefixes: seq<string>)
    requires ws != []
    ensures |prefixes| == |ws| + 1 && prefixes[|ws|] == Unwords(ws) && prefixes[1] == ws[0]
    ensures forall k :: 1 <= k < |ws| ==> prefixes[k + 1] == prefixes[k] + " " + ws[k]
  {
    prefixes := seq(|ws| + 1, k requires 0 <= k <= |ws| => Unwords(ws[..k]));
    assert ws[..1] == [ws[0]];
    forall k | 1 <= k < |ws|
      ensures prefixes[k + 1] == prefixes[k] + " " + ws[k]
    {
      UnwordsPrefixStep(ws, k);
    }
    assert ws[..|ws|] == ws;
  }

  /** Sixteen words joined, written out as the left-nested concatenation. */
  lemma UnwordsOfSixteen(ws: seq<string>)
    requires |ws| == 16
    ensures Unwords(ws)
      == ws[0] + " " + ws[1] + " " + ws[2] + " " + ws[3] + " " + ws[4] + " " + ws[5] + " " + ws[6] + " " + ws[7]
         + " " + ws[8] + " " + ws[9] + " " + ws[10] + " " + ws[11] + " " + ws[12] + " " + ws[13] + " " + ws[14]
         + " " + ws[15]
  {
    var prefixes := UnwordsPrefixes(ws);
    JoinedSixteen(ws, prefixes);
  }

  lemma JoinedSixteen(ws: seq<string>, prefixes: seq<string>)
    requires |ws| == 16 && |prefixes| == 17 && prefixes[1] == ws[0]
    requires forall k :: 1 <= k < 16 ==> prefixes[k + 1] == prefixes[k] + " " + ws[k]
    ensures prefixes[16]
      == ws[0] + " " + ws[1] + " " + ws[2] + " " + ws[3] + " " + ws[4] + " " + ws[5] + " " + ws[6] + " " + ws[7]
         + " " + ws[8] + " " + ws[9] + " " + ws[10] + " " + ws[11] + " " + ws[12] + " " + ws[13] + " " + ws[14]
         + " " + ws[15]
  {
    assert prefixes[2] == prefixes[1] + " " + ws[1];
    assert prefixes[3] == prefixes[2] + " " + ws[2];
    assert prefixes[4] == prefixes[3] + " " + ws[3];
    assert prefixes[5] == prefixes[4] + " " + ws[4];
    assert prefixes[6] == prefixes[5] + " " + ws[5];
    assert prefixes[7] == prefixes[6] + " " + ws[6];
    assert prefixes[8] == prefixes[7] + " " + ws[7];
    assert prefixes[9] == prefixes[8] + " " + ws[8];
    assert prefixes[10] == prefixes[9] + " " + ws[9];
    assert prefixes[11] == prefixes[10] + " " + ws[10];
    assert prefixes[12] == prefixes[11] + " " + ws[11];
    assert prefixes[13] == prefixes[12] + " " + ws[12];
    assert prefixes[14] == prefixes[13] + " " + ws[13];
    assert prefixes[15] == prefixes[14] + " " + ws[14];
    assert prefixes[16] == prefixes[15] + " " + ws[15];
  }
}

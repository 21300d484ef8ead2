/** str.strip, str.upper, str.lower, str.split and " ".join, on ASCII text. */
module Text {

  predicate Space(c: char) {
    c == ' ' || '\t' <= c <= '\r' || '\U{1c}' <= c <= '\U{1f}'
  }

  function StripLeft(s: string): (r: string)
    ensures r == "" || !Space(r[0])
  {
    if s != "" && Space(s[0]) then StripLeft(s[1..]) else s
  }

  function StripRight(s: string): (r: string)
    ensures s != "" && !Space(s[0]) ==> r != "" && r[0] == s[0]
    ensures r == "" || !Space(r[|r| - 1])
  {
    if s != "" && Space(s[|s| - 1]) then StripRight(s[..|s| - 1]) else s
  }

  function Strip(s: string): (r: string)
    ensures r == "" || (!Space(r[0]) && !Space(r[|r| - 1]))
  {
    StripRight(StripLeft(s))
  }

  function UpperChar(c: char): char {
    if 'a' <= c <= 'z' then 'A' + (c - 'a') else c
  }

  function Upper(s: string): string {
    seq(|s|, i requires 0 <= i < |s| => UpperChar(s[i]))
  }

  function LowerChar(c: char): char {
    if 'A' <= c <= 'Z' then 'a' + (c - 'A') else c
  }

  function Lower(s: string): string {
    seq(|s|, i requires 0 <= i < |s| => LowerChar(s[i]))
  }

  // ---------- character by character ----------

  /** The blanks by their ASCII codes, as str.isspace has them. */
  lemma SpaceCodes(c: char)
    ensures Space(c) <==> c as int == 32 || 9 <= c as int <= 13 || 28 <= c as int <= 31
  {}

  /** Case moves the letters by 32 and leaves every other character alone. */
  lemma CaseCodes(s: string, i: nat)
    requires i < |s|
    ensures |Upper(s)| == |s| && Upper(s)[i] as int == s[i] as int - if 97 <= s[i] as int <= 122 then 32 else 0
    ensures |Lower(s)| == |s| && Lower(s)[i] as int == s[i] as int + if 65 <= s[i] as int <= 90 then 32 else 0
  {}

  lemma {:induction false} StripLeftCuts(s: string) returns (lo: nat)
    ensures lo <= |s| && StripLeft(s) == s[lo..] && forall i :: 0 <= i < lo ==> Space(s[i])
  {
    if s != "" && Space(s[0]) {
      var rest := StripLeftCuts(s[1..]);
      lo := rest + 1;
      assert forall i :: 1 <= i < lo ==> s[i] == s[1..][i - 1];
    } else {
      lo := 0;
    }
  }

  lemma {:induction false} StripRightCuts(s: string) returns (hi: nat)
    ensures hi <= |s| && StripRight(s) == s[..hi] && forall i :: hi <= i < |s| ==> Space(s[i])
  {
    if s != "" && Space(s[|s| - 1]) {
      hi := StripRightCuts(s[..|s| - 1]);
      assert s[..|s| - 1][..hi] == s[..hi];
      assert forall i :: hi <= i < |s| - 1 ==> s[i] == s[..|s| - 1][i];
    } else {
      hi := |s|;
      assert s[..hi] == s;
    }
  }

  /** What is stripped is all the blanks at the two ends and nothing else. */
  lemma StripCuts(s: string) returns (lo: nat, hi: nat)
    ensures lo <= hi <= |s| && Strip(s) == s[lo..hi]
    ensures forall i :: 0 <= i < lo || hi <= i < |s| ==> Space(s[i])
    ensures lo < hi ==> !Space(s[lo]) && !Space(s[hi - 1])
  {
    lo := StripLeftCuts(s);
    var rest := StripRightCuts(s[lo..]);
    hi := lo + rest;
    assert s[lo..][..rest] == s[lo..hi];
    forall i | hi <= i < |s| ensures Space(s[i]) {
      assert s[i] == s[lo..][i - lo];
    }
  }

  /** No blank inside. */
  predicate Solid(w: string) {
    w != "" && forall i :: 0 <= i < |w| ==> !Space(w[i])
  }

  /** The length of the word that s starts with. */
  function WordLength(s: string): (n: nat)
    ensures n <= |s| && (n < |s| ==> Space(s[n]))
    ensures forall i :: 0 <= i < n ==> !Space(s[i])
    ensures s != "" && !Space(s[0]) ==> n > 0
  {
    if s == "" || Space(s[0]) then 0 else 1 + WordLength(s[1..])
  }

  function Words(s: string): (ws: seq<string>)
    ensures forall k :: 0 <= k < |ws| ==> Solid(ws[k])
    ensures s != "" && !Space(s[0]) ==> ws != []
    decreases |s|
  {
    if s == "" then []
    else if Space(s[0]) then Words(s[1..])
    else [s[..WordLength(s)]] + Words(s[WordLength(s)..])
  }

  /** The characters of s that are not blanks. */
  function Inked(s: string): string {
    if s == "" then "" else (if Space(s[0]) then "" else [s[0]]) + Inked(s[1..])
  }

  function Glued(ws: seq<string>): string {
    if ws == [] then "" else ws[0] + Glued(ws[1..])
  }

  lemma {:induction false} InkedWord(w: string, t: string)
    requires forall i :: 0 <= i < |w| ==> !Space(w[i])
    ensures Inked(w + t) == w + Inked(t)
  {
    if w == "" {
      assert w + t == t;
    } else {
      InkedWord(w[1..], t);
      assert (w + t)[0] == w[0] && (w + t)[1..] == w[1..] + t;
      assert w + Inked(t) == [w[0]] + (w[1..] + Inked(t));
    }
  }

  /** The words are all the characters between the blanks, in their order. */
  lemma {:induction false} WordsKeepInk(s: string)
    ensures Glued(Words(s)) == Inked(s)
    decreases |s|
  {
    if s != "" {
      if Space(s[0]) {
        WordsKeepInk(s[1..]);
      } else {
        var n := WordLength(s);
        WordsKeepInk(s[n..]);
        InkedWord(s[..n], s[n..]);
        assert s[..n] + s[n..] == s && Words(s)[1..] == Words(s[n..]);
      }
    }
  }

  function Join(ws: seq<string>): string {
    if ws == [] then "" else if |ws| == 1 then ws[0] else ws[0] + " " + Join(ws[1..])
  }

  /** A word ends at the first blank, or with the text. */
  lemma WordEnds(s: string, n: nat)
    requires n <= |s| && (n == |s| || Space(s[n])) && forall i :: 0 <= i < n ==> !Space(s[i])
    ensures WordLength(s) == n
  {}

  lemma WordThenBlank(w: string, t: string)
    requires Solid(w)
    ensures Words(w + " " + t) == [w] + Words(t)
  {
    var s := w + " " + t;
    assert s[0] == w[0] && s[|w|] == ' ';
    WordEnds(s, |w|);
    assert s[..|w|] == w && s[|w|..] == " " + t;
    assert (" " + t)[1..] == t;
  }

  lemma {:induction false} WordsOfJoin(ws: seq<string>)
    requires forall k :: 0 <= k < |ws| ==> Solid(ws[k])
    ensures Words(Join(ws)) == ws
  {
    if |ws| == 1 {
      var w := ws[0];
      WordEnds(w, |w|);
      assert w[..|w|] == w && w[|w|..] == "";
      assert Words(w) == [w] + Words("");
    } else if |ws| > 1 {
      WordsOfJoin(ws[1..]);
      WordThenBlank(ws[0], Join(ws[1..]));
      assert ws == [ws[0]] + ws[1..];
    }
  }

  /** The first word, a blank and the other words joined hold the words of s in order. */
  lemma SplitKeepsWords(s: string)
    requires Words(s) != []
    ensures Words(Words(s)[0] + " " + Join(Words(s)[1..])) == Words(s)
  {
    var ws := Words(s);
    WordThenBlank(ws[0], Join(ws[1..]));
    WordsOfJoin(ws[1..]);
    assert ws == [ws[0]] + ws[1..];
  }

  lemma {:induction false} TrailingBlank(s: string)
    ensures Words(s + " ") == Words(s)
    decreases |s|
  {
    if s == "" {
      assert " "[1..] == "";
      assert Words(" ") == Words("");
    } else if Space(s[0]) {
      assert (s + " ")[1..] == s[1..] + " ";
      TrailingBlank(s[1..]);
    } else {
      var n := WordLength(s);
      WordEnds(s + " ", n);
      assert (s + " ")[..n] == s[..n] && (s + " ")[n..] == s[n..] + " ";
      TrailingBlank(s[n..]);
    }
  }
}

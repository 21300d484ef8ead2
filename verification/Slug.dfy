/**
 The slug search of app/services/auth_service.py, written out twice there: in verify_signup_otp and in
 onboard_user. Names arrive lower-cased and trimmed.
 */
module Slug {
  import Sequences
  import Text
  // ---------- from a name to a base ----------

  predicate Plain(c: char) {
    'a' <= c <= 'z' || '0' <= c <= '9'
  }

  function SkipOther(s: string): (r: string)
    ensures |r| <= |s|
    ensures r == "" || Plain(r[0])
    ensures s != "" && !Plain(s[0]) ==> |r| < |s|
  {
    if s == "" || Plain(s[0]) then s else SkipOther(s[1..])
  }

  /** re.sub(r"[^a-z0-9]+", "-", s) */
  function Dashed(s: string): string
    decreases |s|
  {
    if s == "" then ""
    else if Plain(s[0]) then [s[0]] + Dashed(s[1..])
    else "-" + Dashed(SkipOther(s))
  }

  function StripLeft(s: string): string {
    if s != "" && s[0] == '-' then StripLeft(s[1..]) else s
  }

  function StripRight(s: string): string {
    if s != "" && s[|s| - 1] == '-' then StripRight(s[..|s| - 1]) else s
  }

  function Slugify(s: string): string {
    var stripped := StripRight(StripLeft(Dashed(s)));
    if stripped == "" then "workspace" else stripped
  }

  /** Letters and digits with single dashes between. */
  predicate Spaced(s: string) {
    && (forall i :: 0 <= i < |s| ==> Plain(s[i]) || s[i] == '-')
    && (forall i :: 0 < i < |s| ==> s[i - 1] != '-' || s[i] != '-')
  }

  predicate WellFormed(s: string) {
    s != "" && Spaced(s) && s[0] != '-' && s[|s| - 1] != '-'
  }

  lemma SpacedSlice(s: string, lo: nat, hi: nat)
    requires Spaced(s) && lo <= hi <= |s|
    ensures Spaced(s[lo..hi])
  {
    forall i | 0 < i < hi - lo ensures s[lo..hi][i - 1] != '-' || s[lo..hi][i] != '-' {
      assert s[lo + i - 1] != '-' || s[lo + i] != '-';
    }
  }

  lemma SpacedJoin(s: string, t: string)
    requires Spaced(s) && Spaced(t) && (s == "" || t == "" || s[|s| - 1] != '-' || t[0] != '-')
    ensures Spaced(s + t)
  {
    forall i | 0 < i < |s + t| ensures (s + t)[i - 1] != '-' || (s + t)[i] != '-' {
      if i < |s| {
        assert s[i - 1] != '-' || s[i] != '-';
      } else if i > |s| {
        assert t[i - 1 - |s|] != '-' || t[i - |s|] != '-';
      }
    }
  }

  lemma {:induction false} DashedIsSpaced(s: string)
    ensures Spaced(Dashed(s))
    ensures s != "" && Plain(s[0]) ==> Dashed(s) != "" && Dashed(s)[0] == s[0]
    decreases |s|
  {
    if s != "" {
      if Plain(s[0]) {
        DashedIsSpaced(s[1..]);
        SpacedJoin([s[0]], Dashed(s[1..]));
      } else {
        DashedIsSpaced(SkipOther(s));
        SpacedJoin("-", Dashed(SkipOther(s)));
      }
    }
  }

  lemma {:induction false} DashedKeepsSpaced(s: string)
    requires Spaced(s)
    ensures Dashed(s) == s
    decreases |s|
  {
    if s != "" {
      SpacedSlice(s, 1, |s|);
      assert s[1..|s|] == s[1..];
      DashedKeepsSpaced(s[1..]);
      if !Plain(s[0]) {
        assert s[1..] == "" || Plain(s[1..][0]);
        assert SkipOther(s) == s[1..];
      }
    }
  }

  lemma {:induction false} StripLeftIsSpaced(s: string)
    requires Spaced(s)
    ensures Spaced(StripLeft(s)) && (StripLeft(s) == "" || StripLeft(s)[0] != '-')
  {
    if s != "" && s[0] == '-' {
      SpacedSlice(s, 1, |s|);
      assert s[1..|s|] == s[1..];
      StripLeftIsSpaced(s[1..]);
    }
  }

  lemma {:induction false} StripRightIsSpaced(s: string)
    requires Spaced(s) && (s == "" || s[0] != '-')
    ensures StripRight(s) == "" || WellFormed(StripRight(s))
  {
    if s != "" && s[|s| - 1] == '-' {
      SpacedSlice(s, 0, |s| - 1);
      assert s[0..|s| - 1] == s[..|s| - 1];
      StripRightIsSpaced(s[..|s| - 1]);
    }
  }

  lemma SlugIsWellFormed(s: string)
    ensures WellFormed(Slugify(s))
  {
    DashedIsSpaced(s);
    StripLeftIsSpaced(Dashed(s));
    StripRightIsSpaced(StripLeft(Dashed(s)));
    assert WellFormed("workspace");
  }

  /** The well-formed slugs are exactly the names that slugify to themselves. */
  lemma SlugifyFixesWellFormed(s: string)
    ensures Slugify(s) == s <==> WellFormed(s)
  {
    SlugIsWellFormed(s);
    if WellFormed(s) {
      DashedKeepsSpaced(s);
    }
  }

  // ---------- what any name becomes ----------

  /** Letters and digits by their ASCII codes; names arrive lower-cased. */
  lemma PlainCodes(c: char)
    ensures Plain(c) <==> 48 <= c as int <= 57 || 97 <= c as int <= 122
  {}

  /** How many letters and digits s starts with. */
  function PlainLength(s: string): (n: nat)
    ensures n <= |s| && (n < |s| ==> !Plain(s[n])) && forall i :: 0 <= i < n ==> Plain(s[i])
  {
    if s == "" || !Plain(s[0]) then 0 else 1 + PlainLength(s[1..])
  }

  /** The longest stretches of letters and digits, in order. */
  function Runs(s: string): seq<string>
    decreases |s|
  {
    if s == "" then []
    else if !Plain(s[0]) then Runs(s[1..])
    else [s[..PlainLength(s)]] + Runs(s[PlainLength(s)..])
  }

  function JoinDashed(runs: seq<string>): string {
    if runs == [] then "" else if |runs| == 1 then runs[0] else runs[0] + "-" + JoinDashed(runs[1..])
  }

  lemma {:induction false} DashedRun(s: string)
    ensures Dashed(s) == s[..PlainLength(s)] + Dashed(s[PlainLength(s)..])
    decreases |s|
  {
    if s != "" && Plain(s[0]) {
      var n := PlainLength(s);
      DashedRun(s[1..]);
      assert s[1..][..n - 1] == s[1..n] && s[1..][n - 1..] == s[n..];
      assert s[..n] == [s[0]] + s[1..n];
      Sequences.Regroup([s[0]], s[1..n], Dashed(s[n..]));
    } else {
      assert s[..0] == "" && s[0..] == s;
    }
  }

  lemma {:induction false} RunsSkipOther(s: string)
    ensures Runs(SkipOther(s)) == Runs(s) && (s != "" ==> (SkipOther(s) == "" ==> !Plain(s[|s| - 1])))
    ensures SkipOther(s) != "" ==> SkipOther(s)[|SkipOther(s)| - 1] == s[|s| - 1]
    decreases |s|
  {
    if s != "" && !Plain(s[0]) {
      RunsSkipOther(s[1..]);
    }
  }

  /** Whether something after the last run is left as a dash. */
  function Tail(s: string): string {
    if s != "" && !Plain(s[|s| - 1]) then "-" else ""
  }

  lemma OneRun(s: string)
    requires s != "" && Plain(s[0])
    ensures var n := PlainLength(s); n > 0 && Runs(s) == [s[..n]] + Runs(s[n..])
    ensures var n := PlainLength(s); n == |s| ==> Dashed(s) == s && Runs(s) == [s] && Tail(s) == ""
  {
    var n := PlainLength(s);
    DashedRun(s);
    if n == |s| {
      assert s[..n] == s && s[n..] == "" && s + "" == s;
    }
  }

  lemma TailSkips(s: string, n: nat)
    requires n < |s| && !Plain(s[n])
    ensures |SkipOther(s[n..])| < |s| - n && Tail(s) == if SkipOther(s[n..]) == "" then "-" else Tail(SkipOther(s[n..]))
  {
    RunsSkipOther(s[n..]);
    assert s[n..][|s| - n - 1] == s[|s| - 1];
  }

  lemma DashedAfterRun(s: string)
    requires s != "" && PlainLength(s) < |s|
    ensures Dashed(s) == s[..PlainLength(s)] + ("-" + Dashed(SkipOther(s[PlainLength(s)..])))
  {
    DashedRun(s);
  }

  lemma RunsAfterRun(s: string)
    requires s != "" && Plain(s[0])
    ensures PlainLength(s) > 0 && Runs(s) == [s[..PlainLength(s)]] + Runs(SkipOther(s[PlainLength(s)..]))
  {
    RunsSkipOther(s[PlainLength(s)..]);
  }

  lemma RunsOfPlain(s: string)
    requires s == "" || Plain(s[0])
    ensures Runs(s) == [] <==> s == ""
  {
    if s != "" {
      OneRun(s);
    }
  }

  lemma {:induction false} DashedIsRuns(s: string)
    requires s == "" || Plain(s[0])
    ensures Dashed(s) == JoinDashed(Runs(s)) + Tail(s)
    decreases |s|
  {
    if s == "" {
      assert JoinDashed(Runs(s)) + Tail(s) == "";
    } else if PlainLength(s) == |s| {
      OneRun(s);
      assert s + "" == s;
    } else {
      var n := PlainLength(s);
      var next := SkipOther(s[n..]);
      DashedAfterRun(s);
      RunsAfterRun(s);
      TailSkips(s, n);
      DashedIsRuns(next);
      RunsOfPlain(next);
      RunsGlue(Dashed(s), JoinDashed(Runs(s)), Tail(s), s[..n], Dashed(next), Runs(next), Tail(next));
    }
  }

  lemma RunsGlue(dashed: string, joined: string, tail: string, run: string, dashed': string, runs: seq<string>, tail': string)
    requires dashed == run + ("-" + dashed') && dashed' == JoinDashed(runs) + tail' && joined == JoinDashed([run] + runs)
    requires if runs == [] then tail == "-" && tail' == "" else tail == tail'
    ensures dashed == joined + tail
  {
    DashedTwoParts(run, runs, tail');
  }

  lemma DashedTwoParts(run: string, runs: seq<string>, tail: string)
    ensures run + ("-" + (JoinDashed(runs) + tail)) ==
      if runs == [] then JoinDashed([run] + runs) + ("-" + tail) else JoinDashed([run] + runs) + tail
  {
    var all := [run] + runs;
    assert all[1..] == runs;
    if runs == [] {
      assert all == [run];
      assert JoinDashed(runs) + tail == tail;
    } else {
      assert JoinDashed(all) == run + "-" + JoinDashed(runs);
      assert run + ("-" + (JoinDashed(runs) + tail)) == run + "-" + JoinDashed(runs) + tail;
    }
  }

  lemma {:induction false} RunsArePlain(s: string)
    ensures forall k :: 0 <= k < |Runs(s)| ==> Runs(s)[k] != "" && forall i :: 0 <= i < |Runs(s)[k]| ==> Plain(Runs(s)[k][i])
    decreases |s|
  {
    if s != "" {
      if Plain(s[0]) {
        RunsArePlain(s[PlainLength(s)..]);
      } else {
        RunsArePlain(s[1..]);
      }
    }
  }

  lemma {:induction false} JoinEndsPlain(runs: seq<string>)
    requires forall k :: 0 <= k < |runs| ==> runs[k] != "" && Plain(runs[k][0]) && Plain(runs[k][|runs[k]| - 1])
    ensures runs != [] ==> JoinDashed(runs) != "" && Plain(JoinDashed(runs)[0]) && Plain(JoinDashed(runs)[|JoinDashed(runs)| - 1])
  {
    if |runs| > 1 {
      JoinEndsPlain(runs[1..]);
    }
  }

  lemma StripTail(body: string, tail: string)
    requires body == "" || body[|body| - 1] != '-'
    requires tail == "" || (tail == "-" && body != "")
    ensures StripRight(body + tail) == body
  {
    if tail == "" {
      assert body + tail == body;
    } else {
      assert (body + tail)[..|body|] == body;
    }
  }

  /**
   Every name becomes its stretches of letters and digits, joined by single dashes, and "workspace" if it has none.
   */
  lemma SlugifyJoinsRuns(s: string)
    ensures Slugify(s) == if Runs(s) == [] then "workspace" else JoinDashed(Runs(s))
  {
    if Runs(s) == [] {
      NoRunsNothingLeft(s);
    } else {
      StripsToRuns(s);
    }
  }

  lemma LeftStripped(s: string, body: string)
    requires body == (if s != "" && !Plain(s[0]) then SkipOther(s) else s) && body != "" && Plain(body[0])
    ensures StripLeft(Dashed(s)) == Dashed(body) && Runs(body) == Runs(s) && Tail(body) == Tail(s)
  {
    RunsSkipOther(s);
    DashedIsSpaced(body);
    assert Dashed(body)[0] == body[0];
  }

  lemma RunsHaveEnds(s: string)
    requires Runs(s) != []
    ensures var joined := JoinDashed(Runs(s)); joined != "" && joined[|joined| - 1] != '-'
  {
    RunsArePlain(s);
    JoinEndsPlain(Runs(s));
  }

  lemma StripsToRuns(s: string)
    requires Runs(s) != []
    ensures StripRight(StripLeft(Dashed(s))) == JoinDashed(Runs(s))
  {
    var body := if s != "" && !Plain(s[0]) then SkipOther(s) else s;
    RunsSkipOther(s);
    RunsOfPlain(body);
    LeftStripped(s, body);
    DashedIsRuns(body);
    RunsHaveEnds(s);
    StripTail(JoinDashed(Runs(s)), Tail(body));
  }

  lemma {:induction false} NoRunsNothingLeft(s: string)
    requires Runs(s) == []
    ensures StripRight(StripLeft(Dashed(s))) == ""
  {
    if s != "" {
      NoRunsAllOther(s);
      assert Dashed(s) == "-" + Dashed("");
    }
  }

  lemma {:induction false} NoRunsAllOther(s: string)
    requires Runs(s) == []
    ensures SkipOther(s) == "" && (s != "" ==> !Plain(s[0]))
  {
    if s != "" {
      NoRunsAllOther(s[1..]);
    }
  }

  // ---------- the candidates ----------

  function Digit(d: nat): char
    requires d < 10
  {
    '0' + d as char
  }

  /** str(n) */
  function Decimal(n: nat): (r: string)
    ensures r != "" && (|r| == 1 <==> n < 10)
  {
    if n < 10 then [Digit(n)] else Decimal(n / 10) + [Digit(n % 10)]
  }

  lemma {:induction false} DecimalIsInjective(m: nat, n: nat)
    requires Decimal(m) == Decimal(n)
    ensures m == n
    decreases m
  {
    var last := Decimal(m)[|Decimal(m)| - 1];
    var front := Decimal(m)[..|Decimal(m)| - 1];
    assert m >= 10 ==> front == Decimal(m / 10) && last == Digit(m % 10);
    assert n >= 10 ==> front == Decimal(n / 10) && last == Digit(n % 10);
    if m >= 10 && n >= 10 {
      DecimalIsInjective(m / 10, n / 10);
      assert Digit(m % 10) == Digit(n % 10);
    } else {
      assert Decimal(m) == [Digit(m)] && Decimal(n) == [Digit(n)];
    }
  }

  lemma {:induction false} DecimalIsPlain(n: nat)
    ensures forall i :: 0 <= i < |Decimal(n)| ==> Plain(Decimal(n)[i])
  {
    if n >= 10 {
      DecimalIsPlain(n / 10);
    }
  }

  /** What a row of digits stands for. */
  function ValueOf(digits: string): int {
    if digits == "" then 0 else 10 * ValueOf(digits[..|digits| - 1]) + (digits[|digits| - 1] as int - '0' as int)
  }

  /** The suffix of a candidate is the number in decimal, without leading zeros. */
  lemma {:induction false} DecimalIsValue(n: nat)
    ensures ValueOf(Decimal(n)) == n && (n > 0 ==> Decimal(n)[0] != '0')
    ensures forall i :: 0 <= i < |Decimal(n)| ==> '0' <= Decimal(n)[i] <= '9'
  {
    var d := Decimal(n);
    if n < 10 {
      assert d[..|d| - 1] == "";
    } else {
      DecimalIsValue(n / 10);
      assert d[..|d| - 1] == Decimal(n / 10);
    }
  }

  /** base, base-2, base-3, ... */
  function Candidate(slugBase: string, k: nat): string {
    if k == 0 then slugBase else slugBase + "-" + Decimal(k + 1)
  }

  /** The base itself, then base-2, base-3 and so on. */
  lemma CandidatesInOrder(slugBase: string, k: nat)
    ensures Candidate(slugBase, 0) == slugBase
    ensures k > 0 ==> |Candidate(slugBase, k)| > |slugBase| && Candidate(slugBase, k)[..|slugBase| + 1] == slugBase + "-"
    ensures k > 0 ==> ValueOf(Candidate(slugBase, k)[|slugBase| + 1..]) == k + 1
  {
    DecimalIsValue(k + 1);
    assert k > 0 ==> Candidate(slugBase, k)[|slugBase| + 1..] == Decimal(k + 1);
  }

  lemma CandidatesDiffer(slugBase: string, i: nat, j: nat)
    requires i != j
    ensures Candidate(slugBase, i) != Candidate(slugBase, j)
  {
    if i > 0 && j > 0 && Candidate(slugBase, i) == Candidate(slugBase, j) {
      assert Decimal(i + 1) == Candidate(slugBase, i)[|slugBase| + 1..];
      assert Decimal(j + 1) == Candidate(slugBase, j)[|slugBase| + 1..];
      DecimalIsInjective(i + 1, j + 1);
    }
  }

  /** A suffix keeps a slug well-formed, so slugifying any slug the search returns gives it back. */
  lemma CandidateIsWellFormed(s: string, k: nat)
    ensures WellFormed(Candidate(Slugify(s), k)) && Slugify(Candidate(Slugify(s), k)) == Candidate(Slugify(s), k)
  {
    SlugIsWellFormed(s);
    if k > 0 {
      var d := Decimal(k + 1);
      DecimalIsPlain(k + 1);
      SpacedJoin("-", d);
      SpacedJoin(Slugify(s), "-" + d);
      assert Slugify(s) + "-" + d == Slugify(s) + ("-" + d);
      assert WellFormed(Slugify(s) + ("-" + d));
    }
    SlugifyFixesWellFormed(Candidate(Slugify(s), k));
  }

  // ---------- the search ----------

  predicate AllTaken(slugBase: string, k: nat, taken: set<string>) {
    forall j :: 0 <= j < k ==> Candidate(slugBase, j) in taken
  }

  /** The first k candidates are k different slugs, so all of them are taken only if k slugs are. */
  lemma {:induction false} Pigeonhole(slugBase: string, k: nat, taken: set<string>)
    requires AllTaken(slugBase, k, taken)
    ensures k <= |taken|
    decreases k
  {
    if k > 0 {
      var last := Candidate(slugBase, k - 1);
      forall j | 0 <= j < k - 1 ensures Candidate(slugBase, j) in taken - {last} {
        CandidatesDiffer(slugBase, j, k - 1);
      }
      Pigeonhole(slugBase, k - 1, taken - {last});
    }
  }

  /** The k-th candidate is the first that is not taken. */
  predicate FirstFree(slugBase: string, k: nat, taken: set<string>) {
    Candidate(slugBase, k) !in taken && AllTaken(slugBase, k, taken)
  }

  /** There is one first free candidate, and as many taken slugs before it. */
  lemma FirstFreeIsUnique(slugBase: string, j: nat, k: nat, taken: set<string>)
    requires FirstFree(slugBase, j, taken) && FirstFree(slugBase, k, taken)
    ensures j == k <= |taken|
  {
    Pigeonhole(slugBase, k, taken);
  }

  /** The organizations table, by its unique slug column. */
  class Organizations {
    var slugs: seq<string>

    predicate Valid()
      reads this
    {
      Sequences.Distinct(slugs)
    }

    constructor ()
      ensures Valid() && slugs == []
    {
      slugs := [];
    }

    /** The while loop; `probes` counts its queries. */
    method FindSlug(slugBase: string) returns (slug: string, probes: nat)
      requires Valid()
      ensures slug !in slugs
      ensures 1 <= probes <= |slugs| + 1
      ensures slug == Candidate(slugBase, probes - 1) && FirstFree(slugBase, probes - 1, Sequences.Elements(slugs))
    {
      ghost var taken := Sequences.Elements(slugs);
      Sequences.SizeOfDistinct(slugs);
      slug := slugBase;
      var suffix := 2;
      probes := 1;
      while slug in slugs
        invariant probes >= 1 && suffix == probes + 1
        invariant slug == Candidate(slugBase, probes - 1) && AllTaken(slugBase, probes - 1, taken)
        invariant probes - 1 <= |taken|
        decreases |taken| + 1 - probes
      {
        assert AllTaken(slugBase, probes, taken);
        Pigeonhole(slugBase, probes, taken);
        slug := slugBase + "-" + Decimal(suffix);
        suffix := suffix + 1;
        probes := probes + 1;
      }
    }

    /** Onboarding's organization row; its election row is then slug + "-election". */
    method Onboard(name: string) returns (slug: string)
      requires Valid()
      modifies this
      ensures Valid() && slugs == old(slugs) + [slug] && slug !in old(slugs) && WellFormed(slug)
      ensures exists k: nat :: slug == Candidate(Slugify(name), k) && FirstFree(Slugify(name), k, Sequences.Elements(old(slugs)))
    {
      var probes;
      slug, probes := FindSlug(Slugify(name));
      CandidateIsWellFormed(name, probes - 1);
      slugs := slugs + [slug];
    }

    /** create_organization: an administrator's slug is stored lower-cased and trimmed, whatever else it holds. */
    method CreateOrganization(given: string) returns (ok: bool)
      requires Valid()
      modifies this
      ensures Valid() && ok == (Text.Strip(Text.Lower(given)) !in old(slugs))
      ensures slugs == if ok then old(slugs) + [Text.Strip(Text.Lower(given))] else old(slugs)
    {
      var slug := Text.Strip(Text.Lower(given));
      if slug in slugs {
        return false;
      }
      slugs := slugs + [slug];
      ok := true;
    }
  }
}

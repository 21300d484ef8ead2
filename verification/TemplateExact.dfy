/**
 Exactly which texts and values a preview copes with. Text and values are inert if no placeholder starts in them,
 whole or cut off at the end; with inert ones every order of the variables gives the simultaneous substitution, and
 one that is not inert spoils some template.
 */
module TemplateExact {
  import opened Template
  import Sequences

  // ---------- every content has one reading as text and placeholders ----------

  function Parse(s: string): seq<Segment> {
    if s == "" then []
    else
      var name := HeadMatch(s);
      if name != "" then [Slot(name)] + Parse(s[|name| + 4..]) else Prepend(s[0], Parse(s[1..]))
  }

  function Prepend(c: char, segs: seq<Segment>): seq<Segment> {
    if segs != [] && segs[0].Text? then [Text([c] + segs[0].text)] + segs[1..] else [Text([c])] + segs
  }

  predicate Canonical(seg: Segment) {
    match seg case Text(t) => FindAll(t) == [] case Slot(n) => Name(n)
  }

  predicate AllCanonical(segs: seq<Segment>) {
    forall i :: 0 <= i < |segs| ==> Canonical(segs[i])
  }

  lemma PrependReads(c: char, segs: seq<Segment>)
    ensures Flat(Prepend(c, segs)) == [c] + Flat(segs) && Names(Prepend(c, segs)) == Names(segs)
  {
    if segs != [] && segs[0].Text? {
      assert Prepend(c, segs)[1..] == segs[1..];
      Sequences.Regroup([c], segs[0].text, Flat(segs[1..]));
    } else {
      assert ([Text([c])] + segs)[1..] == segs;
    }
  }

  /** What is read of the rest of a content goes on to be read. */
  lemma PrependIsCanonical(s: string, segs: seq<Segment>)
    requires s != "" && HeadMatch(s) == "" && Flat(segs) == s[1..] && AllCanonical(segs)
    ensures AllCanonical(Prepend(s[0], segs))
  {
    var t := if segs != [] && segs[0].Text? then segs[0].text else "";
    assert t <= s[1..];
    TextGrows(s, t);
    assert [s[0]] + "" == [s[0]];
  }

  lemma TextGrows(s: string, t: string)
    requires s != "" && HeadMatch(s) == "" && t <= s[1..] && FindAll(t) == []
    ensures FindAll([s[0]] + t) == []
  {
    var u := [s[0]] + t;
    assert u <= s && u[1..] == t;
    if HeadMatch(u) != "" {
      HeadMatchIsMark(u);
      MarkAtHead(HeadMatch(u), s);
    }
  }

  lemma SlotReads(s: string, segs: seq<Segment>)
    requires HeadMatch(s) != "" && Flat(segs) == s[|HeadMatch(s)| + 4..] && AllCanonical(segs)
    ensures Flat([Slot(HeadMatch(s))] + segs) == s && Names([Slot(HeadMatch(s))] + segs) == [HeadMatch(s)] + Names(segs)
    ensures AllCanonical([Slot(HeadMatch(s))] + segs)
  {
    var n := HeadMatch(s);
    HeadMatchIsMark(s);
    assert ([Slot(n)] + segs)[1..] == segs;
    assert s == Mark(n) + s[|n| + 4..];
  }

  lemma {:induction false} ParseReads(s: string)
    ensures Flat(Parse(s)) == s && Names(Parse(s)) == FindAll(s) && AllCanonical(Parse(s))
    decreases |s|
  {
    if s != "" {
      var n := HeadMatch(s);
      if n != "" {
        ParseReads(s[|n| + 4..]);
        SlotReads(s, Parse(s[|n| + 4..]));
      } else {
        ParseReads(s[1..]);
        PrependReads(s[0], Parse(s[1..]));
        PrependIsCanonical(s, Parse(s[1..]));
        assert [s[0]] + s[1..] == s;
      }
    }
  }

  /** The preview of any content whose texts are inert, with inert values. */
  lemma InertContentPreview(content: string, data: map<string, string>, order: seq<string>)
    requires WellFormed(Parse(content)) && InertData(data) && Listing(order, FindAll(content))
    ensures var rendered := RenderInOrder(content, order, data);
      && rendered == Flat(Fill(Parse(content), data, data.Keys))
      && (FindAll(rendered) == [] <==> forall n :: n in FindAll(content) ==> n in data)
  {
    ParseReads(content);
    PreviewIsSimultaneous(Parse(content), data, order);
  }

  // ---------- what text that is not inert can turn into ----------

  /** The placeholder that a beginning can be completed to, and what completes it. */
  function Intended(u: string): string {
    if |u| < 3 then "a" else u[2..2 + WordRun(u[2..])]
  }

  function Ending(u: string): string {
    if |u| <= 1 then "{a}}"
    else if |u| == 2 then "a}}"
    else if 2 + WordRun(u[2..]) == |u| then "}}"
    else "}"
  }

  lemma EndingCompletes(u: string)
    requires Begins(u)
    ensures Name(Intended(u)) && u + Ending(u) == Mark(Intended(u)) && Inert(Ending(u))
  {
    if |u| <= 2 {
      ShortBeginning(u);
    } else {
      LongBeginning(u);
      NoBraceIsInert(Ending(u));
    }
  }

  lemma ShortBeginning(u: string)
    requires u == "{" || u == "{{"
    ensures Name(Intended(u)) && u + Ending(u) == Mark(Intended(u)) && Inert(Ending(u))
  {
    if |u| == 1 {
      MarkTailIsInert("a");
      assert Ending(u) == MarkTail("a");
    } else {
      NoBraceIsInert(Ending(u));
    }
    assert u + Ending(u) == Mark("a");
  }

  lemma LongBeginning(u: string)
    requires Begins(u) && |u| > 2
    ensures Name(Intended(u)) && u + Ending(u) == Mark(Intended(u))
  {
    var n := WordRun(u[2..]);
    var name := Intended(u);
    assert forall i :: 0 <= i < n ==> u[2..][i] == name[i];
    if n + 2 == |u| {
      assert u == "{{" + name;
    } else {
      assert u == "{{" + name + "}";
      Sequences.Regroup("{{" + name, "}", "}");
    }
  }

  /** Where t is not inert, some placeholder is there once r follows; r itself is inert. */
  lemma NotInertCompletes(t: string) returns (i: nat, v: string, r: string)
    requires !Inert(t)
    ensures i < |t| && Name(v) && Inert(r) && Mark(v) <= (t + r)[i..]
  {
    i :| 0 <= i < |t| && (HeadMatch(t[i..]) != "" || Begins(t[i..]));
    v, r := SpotCompletes(t[i..]);
    TailOfJoin(t, r, i);
  }

  lemma SpotCompletes(u: string) returns (v: string, r: string)
    requires HeadMatch(u) != "" || Begins(u)
    ensures Name(v) && Inert(r) && Mark(v) <= u + r
  {
    if HeadMatch(u) != "" {
      v, r := HeadMatch(u), "";
      HeadMatchIsMark(u);
      NoBraceIsInert(r);
      StillBegins(Mark(v), u, r);
    } else {
      v, r := Intended(u), Ending(u);
      EndingCompletes(u);
    }
  }

  lemma TailOfJoin(t: string, r: string, i: nat)
    requires i <= |t|
    ensures (t + r)[i..] == t[i..] + r
  {}

  /** A placeholder anywhere is found, if perhaps another before it. */
  lemma {:induction false} MarkIsFound(s: string, i: nat, v: string)
    requires i < |s| && Name(v) && Mark(v) <= s[i..]
    ensures FindAll(s) != []
    decreases |s|
  {
    assert s[0..] == s;
    if i == 0 {
      MarkAtHead(v, s);
    } else if HeadMatch(s) == "" {
      assert s[1..][i - 1..] == s[i..];
      MarkIsFound(s[1..], i - 1, v);
    }
  }

  // ---------- removing placeholders shortens ----------

  lemma {:induction false} RemovingNeverGrows(s: string, v: string)
    ensures |Replace(s, Mark(v), "")| <= |s|
    decreases |s|
  {
    if s != "" {
      if StartsWith(s, Mark(v)) {
        RemovingNeverGrows(s[|Mark(v)|..], v);
      } else {
        RemovingNeverGrows(s[1..], v);
      }
    }
  }

  lemma MarkBraces(n: string)
    requires Name(n)
    ensures Mark(n)[0] == Mark(n)[1] == '{' && forall k :: 2 <= k < |n| + 4 ==> Mark(n)[k] != '{'
  {
    forall k | 2 <= k < |n| + 4 ensures Mark(n)[k] != '{' {
      assert k < |n| + 2 ==> Mark(n)[k] == n[k - 2];
    }
  }

  /** A placeholder that starts before two braces has ended by then. */
  lemma MarkEndsBefore(n: string, s: string, p: nat)
    requires Name(n) && Mark(n) <= s && 0 < p && p + 2 <= |s| && s[p] == s[p + 1] == '{'
    ensures |n| + 4 <= p
  {
    MarkBraces(n);
    assert s == Mark(n) + s[|n| + 4..];
  }

  /** So two placeholders never overlap. */
  lemma NoOverlap(s: string, v: string, p: nat)
    requires Name(v) && p <= |s| && Mark(v) <= s && Mark(v) <= s[p..] && 0 < p
    ensures p >= |Mark(v)|
  {
    MarkBraces(v);
    assert s[p] == s[p..][0] == Mark(v)[0] && s[p + 1] == s[p..][1] == Mark(v)[1];
    MarkEndsBefore(v, s, p);
  }

  lemma {:induction false} RemovesOne(s: string, v: string, p: nat)
    requires Name(v) && p < |s| && Mark(v) <= s[p..]
    ensures |Replace(s, Mark(v), "")| + |Mark(v)| <= |s|
    decreases |s|
  {
    if StartsWith(s, Mark(v)) {
      RemovingNeverGrows(s[|Mark(v)|..], v);
    } else {
      assert s[0..] == s;
      assert s[1..][p - 1..] == s[p..];
      RemovesOne(s[1..], v, p - 1);
    }
  }

  lemma {:induction false} RemovesTwo(s: string, v: string, p: nat, q: nat)
    requires Name(v) && p < q < |s| && Mark(v) <= s[p..] && Mark(v) <= s[q..]
    ensures |Replace(s, Mark(v), "")| + 2 * |Mark(v)| <= |s|
    decreases |s|
  {
    var k := |Mark(v)|;
    if StartsWith(s, Mark(v)) {
      NoOverlap(s, v, q);
      assert s[k..][q - k..] == s[q..];
      RemovesOne(s[k..], v, q - k);
    } else {
      assert s[0..] == s;
      assert s[1..][p - 1..] == s[p..] && s[1..][q - 1..] == s[q..];
      RemovesTwo(s[1..], v, p - 1, q - 1);
    }
  }

  /** Removing v after its placeholder has come about by accident takes away more than its slot. */
  lemma AccidentIsRemoved(s: string, i: nat, v: string)
    requires Name(v) && i < |s| && Mark(v) <= s[i..]
    ensures |Replace(s + Mark(v), Mark(v), "")| < |s|
  {
    SlotAfter(s, i, v, s + Mark(v));
    RemovesTwo(s + Mark(v), v, i, |s|);
  }

  lemma SlotAfter(s: string, i: nat, v: string, all: string)
    requires i < |s| && Mark(v) <= s[i..] && all == s + Mark(v)
    ensures |s| < |all| && Mark(v) <= all[i..] && Mark(v) <= all[|s|..]
  {
    assert all[i..] == s[i..] + Mark(v) && all[|s|..] == Mark(v);
    StillBegins(Mark(v), s[i..], Mark(v));
  }

  lemma StillBegins(m: string, s: string, more: string)
    requires m <= s
    ensures m <= s + more
  {}

  // ---------- values ----------

  /** A template with the value t for variable w, where everything else is inert. */
  ghost predicate WithValue(segs: seq<Segment>, data: map<string, string>, order: seq<string>, w: string, t: string) {
    && WellFormed(segs) && Listing(order, FindAll(Flat(segs)))
    && w in data && data[w] == t && forall n :: n in data && n != w ==> Inert(data[n])
  }

  /** The preview is the simultaneous substitution. */
  predicate Simultaneous(segs: seq<Segment>, data: map<string, string>, order: seq<string>) {
    RenderInOrder(Flat(segs), order, data) == Flat(Fill(segs, data, data.Keys))
  }

  /** The preview is called valid exactly if no placeholder is left in it. */
  ghost predicate ValidMeansFilled(segs: seq<Segment>, data: map<string, string>, order: seq<string>) {
    (forall n :: n in FindAll(Flat(segs)) ==> n in data) <==> FindAll(RenderInOrder(Flat(segs), order, data)) == []
  }

  lemma InertIsHarmless(segs: seq<Segment>, data: map<string, string>, order: seq<string>)
    requires WellFormed(segs) && Listing(order, FindAll(Flat(segs))) && InertData(data)
    ensures Simultaneous(segs, data, order) && ValidMeansFilled(segs, data, order)
  {
    PreviewIsSimultaneous(segs, data, order);
  }

  lemma FlatThree(x: Segment, y: Segment, z: Segment)
    ensures Flat([x, y, z]) == Shown(x) + Shown(y) + Shown(z)
  {
    assert [x, y, z][1..] == [y, z];
    FlatTwo(y, z);
    Sequences.Regroup(Shown(x), Shown(y), Shown(z));
  }

  lemma LongerName(v: string)
    requires Name(v)
    ensures Name(v + "a") && v + "a" != v
  {
    forall k | 0 <= k < |v + "a"| ensures IsWord((v + "a")[k]) {
      assert k < |v| ==> (v + "a")[k] == v[k];
    }
    assert |v + "a"| == |v| + 1;
  }

  lemma OneListed(w: string, names: seq<string>)
    requires names == [w]
    ensures Listing([w], names)
  {}

  lemma TwoListed(v: string, w: string, names: seq<string>)
    requires names == [v, w] && v != w
    ensures Listing([v, w], names)
  {}

  lemma RenderOne(content: string, w: string, data: map<string, string>)
    requires w in data
    ensures RenderInOrder(content, [w], data) == Replace(content, Mark(w), data[w])
  {
    assert [w][1..] == [];
  }

  /** Put after a value that is not inert, an inert text and a slot do not survive the value. */
  lemma BadValueBreaksOrder(t: string) returns (segs: seq<Segment>, data: map<string, string>, order: seq<string>, w: string)
    requires !Inert(t)
    ensures WithValue(segs, data, order, w, t) && !Simultaneous(segs, data, order)
  {
    var i, v, r := NotInertCompletes(t);
    w := v + "a";
    LongerName(v);
    segs := [Slot(w), Text(r), Slot(v)];
    data := map[w := t, v := ""];
    order := [w, v];
    NoBraceIsInert("");
    ThreeNames(w, r, v);
    TwoListed(w, v, FindAll(Flat(segs)));
    BadValueRendered(t, r, w, v, i);
  }

  lemma ThreeNames(w: string, r: string, v: string)
    requires Name(w) && Inert(r) && Name(v)
    ensures WellFormed([Slot(w), Text(r), Slot(v)]) && FindAll(Flat([Slot(w), Text(r), Slot(v)])) == [w, v]
  {
    FlatThree(Slot(w), Text(r), Slot(v));
    Sequences.Regroup(Mark(w), r, Mark(v));
    TwoFound(w, r, v);
  }

  lemma TwoFound(w: string, r: string, v: string)
    requires Name(w) && Inert(r) && Name(v)
    ensures FindAll(Mark(w) + (r + Mark(v))) == [w, v]
  {
    SlotFound(w, r + Mark(v));
    FindSkipsInert(r, Mark(v));
    FindOnly(v);
  }

  lemma SlotFound(w: string, rest: string)
    requires Name(w)
    ensures FindAll(Mark(w) + rest) == [w] + FindAll(rest)
  {
    MarkMatches(w, rest);
  }

  lemma BadValueRendered(t: string, r: string, w: string, v: string, i: nat)
    requires Name(w) && Name(v) && w != v && Inert(r) && i < |t + r| && Mark(v) <= (t + r)[i..]
    ensures !Simultaneous([Slot(w), Text(r), Slot(v)], map[w := t, v := ""], [w, v])
  {
    var segs := [Slot(w), Text(r), Slot(v)];
    var data := map[w := t, v := ""];
    ThreeNames(w, r, v);
    InOrder(Flat(segs), w, v, data);
    ReplaceFillsSlots(segs, w, t);
    FillThree(segs, w, t);
    FlatThree(Text(t), Text(r), Slot(v));
    AccidentIsRemoved(t + r, i, v);
    assert Fill(segs, data, data.Keys) == [Text(t), Text(r), Text("")];
    FlatThree(Text(t), Text(r), Text(""));
    assert t + r + "" == t + r;
  }

  lemma FillThree(segs: seq<Segment>, w: string, value: string)
    requires |segs| == 3
    ensures FillName(segs, w, value) == [
      if segs[0] == Slot(w) then Text(value) else segs[0],
      if segs[1] == Slot(w) then Text(value) else segs[1],
      if segs[2] == Slot(w) then Text(value) else segs[2]]
  {
    assert segs == [segs[0]] + segs[1..];
    assert segs[1..] == [segs[1], segs[2]];
    FillTwo(segs[1], segs[2], w, value);
  }

  /** With an inert text after it, a value that is not inert leaves a placeholder. */
  lemma BadValueLeavesPlaceholder(t: string) returns (segs: seq<Segment>, data: map<string, string>, order: seq<string>, w: string)
    requires !Inert(t)
    ensures WithValue(segs, data, order, w, t) && !ValidMeansFilled(segs, data, order)
  {
    var i, v, r := NotInertCompletes(t);
    w := v;
    segs := [Slot(w), Text(r)];
    data := map[w := t];
    order := [w];
    SlotThenText(w, r, t);
    OneListed(w, FindAll(Flat(segs)));
    MarkIsFound(t + r, i, v);
  }

  lemma SlotThenText(w: string, r: string, t: string)
    requires Name(w) && Inert(r)
    ensures WellFormed([Slot(w), Text(r)]) && FindAll(Flat([Slot(w), Text(r)])) == [w]
    ensures RenderInOrder(Flat([Slot(w), Text(r)]), [w], map[w := t]) == t + r
  {
    FlatTwo(Slot(w), Text(r));
    FindOne(w, r);
    RenderOne(Mark(w) + r, w, map[w := t]);
    ReplaceOne(w, r, t);
  }

  /** A value is harmless if and only if it is inert: in every template and every order, for the text and for is_valid. */
  lemma ValueIsHarmlessIff(t: string)
    ensures Inert(t) <==> forall segs, data, order, w :: WithValue(segs, data, order, w, t) ==> Simultaneous(segs, data, order)
    ensures Inert(t) <==> forall segs, data, order, w :: WithValue(segs, data, order, w, t) ==> ValidMeansFilled(segs, data, order)
  {
    if Inert(t) {
      forall segs, data, order, w | WithValue(segs, data, order, w, t)
        ensures Simultaneous(segs, data, order) && ValidMeansFilled(segs, data, order)
      {
        InertIsHarmless(segs, data, order);
      }
    } else {
      var s1, d1, o1, w1 := BadValueBreaksOrder(t);
      var s2, d2, o2, w2 := BadValueLeavesPlaceholder(t);
    }
  }

  // ---------- texts ----------

  predicate FormedBut(seg: Segment, t: string) {
    match seg case Text(u) => u == t || Inert(u) case Slot(n) => Name(n)
  }

  /** A template with the text t in it, where everything else is inert. */
  ghost predicate WithText(segs: seq<Segment>, data: map<string, string>, order: seq<string>, t: string) {
    && Text(t) in segs && (forall i :: 0 <= i < |segs| ==> FormedBut(segs[i], t))
    && Listing(order, FindAll(Flat(segs))) && InertData(data)
  }

  /** Two braces follow. */
  predicate Opens(tail: string) {
    |tail| >= 2 && tail[0] == tail[1] == '{'
  }

  /** Text without placeholders has none before a slot either, whatever the text ends with. */
  lemma HeadBeforeSlot(u: string, tail: string)
    requires u != "" && HeadMatch(u) == "" && Opens(tail)
    ensures HeadMatch(u + tail) == ""
  {
    var n := HeadMatch(u + tail);
    if n != "" {
      HeadMatchIsMark(u + tail);
      MarkEndsBefore(n, u + tail, |u|);
      MarkAtHead(n, u);
    }
  }

  lemma NoneFound(t: string)
    requires t != "" && FindAll(t) == []
    ensures HeadMatch(t) == "" && FindAll(t[1..]) == []
  {}

  lemma FindStep(s: string)
    requires s != "" && HeadMatch(s) == ""
    ensures FindAll(s) == FindAll(s[1..])
  {}

  lemma {:induction false} FindPassesText(t: string, tail: string)
    requires FindAll(t) == [] && Opens(tail)
    ensures FindAll(t + tail) == FindAll(tail)
    decreases |t|
  {
    var s := t + tail;
    if t == "" {
      assert s == tail;
    } else {
      var rest := t[1..] + tail;
      assert s[1..] == rest;
      NoneFound(t);
      FindPassesText(t[1..], tail);
      HeadBeforeSlot(t, tail);
      FindStep(s);
    }
  }

  lemma {:induction false} ReplacePassesText(t: string, tail: string, v: string, value: string)
    requires FindAll(t) == [] && Opens(tail) && Name(v)
    ensures Replace(t + tail, Mark(v), value) == t + Replace(tail, Mark(v), value)
    decreases |t|
  {
    if t == "" {
      assert t + tail == tail;
    } else {
      NoneFound(t);
      HeadBeforeSlot(t, tail);
      if StartsWith(t + tail, Mark(v)) {
        MarkAtHead(v, t + tail);
      }
      ReplacePassesText(t[1..], tail, v, value);
      assert (t + tail)[1..] == t[1..] + tail && (t + tail)[0] == t[0];
      Sequences.Regroup([t[0]], t[1..], Replace(tail, Mark(v), value));
      assert t == [t[0]] + t[1..];
    }
  }

  lemma BadTextLeavesPlaceholder(t: string) returns (segs: seq<Segment>, data: map<string, string>, order: seq<string>)
    requires !Inert(t) && FindAll(t) == []
    ensures WithText(segs, data, order, t) && !ValidMeansFilled(segs, data, order)
  {
    var i, v, r := NotInertCompletes(t);
    segs := [Text(t), Slot(v)];
    data := map[v := r];
    order := [v];
    TextThenSlot(t, v, r);
    MarkIsFound(t + r, i, v);
  }

  lemma TextThenSlot(t: string, v: string, r: string)
    requires FindAll(t) == [] && Name(v)
    requires Inert(r)
    ensures WithText([Text(t), Slot(v)], map[v := r], [v], t) && FindAll(Flat([Text(t), Slot(v)])) == [v]
    ensures RenderInOrder(Flat([Text(t), Slot(v)]), [v], map[v := r]) == t + r
  {
    assert [Text(t), Slot(v)][0] == Text(t);
    FlatTwo(Text(t), Slot(v));
    FindPassesText(t, Mark(v));
    FindOnly(v);
    OneListed(v, FindAll(Flat([Text(t), Slot(v)])));
    RenderOne(t + Mark(v), v, map[v := r]);
    ReplacePassesText(t, Mark(v), v, r);
    ReplaceOnly(v, r);
  }

  lemma ReplaceOnly(v: string, r: string)
    requires Name(v)
    ensures Replace(Mark(v), Mark(v), r) == r
  {
    ReplaceTakesOwnSlot("", v, r);
    assert Mark(v) + "" == Mark(v) && r + "" == r;
  }

  lemma BadTextBreaksOrder(t: string) returns (segs: seq<Segment>, data: map<string, string>, order: seq<string>)
    requires !Inert(t) && FindAll(t) == []
    ensures WithText(segs, data, order, t) && !Simultaneous(segs, data, order)
  {
    var i, v, r := NotInertCompletes(t);
    var w := v + "a";
    LongerName(v);
    segs := [Text(t), Slot(w), Slot(v)];
    data := map[w := r, v := ""];
    order := [w, v];
    BadTextForm(t, r, w, v);
    BadTextRendered(t, r, w, v, i);
  }

  lemma BadTextForm(t: string, r: string, w: string, v: string)
    requires FindAll(t) == [] && Name(w) && Name(v) && w != v && Inert(r)
    ensures WithText([Text(t), Slot(w), Slot(v)], map[w := r, v := ""], [w, v], t)
  {
    var segs := [Text(t), Slot(w), Slot(v)];
    NoBraceIsInert("");
    BadTextNames(t, w, v);
    TwoListed(w, v, FindAll(Flat(segs)));
    assert segs[0] == Text(t);
    forall i | 0 <= i < 3 ensures FormedBut(segs[i], t) {
      assert segs[i] == if i == 0 then Text(t) else if i == 1 then Slot(w) else Slot(v);
    }
  }

  lemma BadTextNames(t: string, w: string, v: string)
    requires FindAll(t) == [] && Name(w) && Name(v)
    ensures Flat([Text(t), Slot(w), Slot(v)]) == t + (Mark(w) + Mark(v))
    ensures FindAll(t + (Mark(w) + Mark(v))) == [w, v]
  {
    FlatThree(Text(t), Slot(w), Slot(v));
    Sequences.Regroup(t, Mark(w), Mark(v));
    FindPassesText(t, Mark(w) + Mark(v));
    TwoSlots(w, v);
  }

  lemma TwoSlots(w: string, v: string)
    requires Name(w) && Name(v)
    ensures FindAll(Mark(w) + Mark(v)) == [w, v]
  {
    SlotFound(w, Mark(v));
    FindOnly(v);
  }

  lemma BadTextRendered(t: string, r: string, w: string, v: string, i: nat)
    requires FindAll(t) == [] && Name(w) && Name(v) && w != v && i < |t + r| && Mark(v) <= (t + r)[i..]
    ensures !Simultaneous([Text(t), Slot(w), Slot(v)], map[w := r, v := ""], [w, v])
  {
    var segs := [Text(t), Slot(w), Slot(v)];
    var data := map[w := r, v := ""];
    BadTextNames(t, w, v);
    InOrder(Flat(segs), w, v, data);
    ReplacePassesText(t, Mark(w) + Mark(v), w, r);
    ReplaceTwo(Slot(w), Slot(v), w, r);
    Sequences.Regroup(t, r, Mark(v));
    AccidentIsRemoved(t + r, i, v);
    assert Fill(segs, data, data.Keys) == [Text(t), Text(r), Text("")];
    FlatThree(Text(t), Text(r), Text(""));
    assert t + r + "" == t + r;
  }

  /** The same of a text between placeholders; one that has a placeholder in it is not such a text. */
  lemma TextIsHarmlessIff(t: string)
    requires FindAll(t) == []
    ensures Inert(t) <==> forall segs, data, order :: WithText(segs, data, order, t) ==> Simultaneous(segs, data, order)
    ensures Inert(t) <==> forall segs, data, order :: WithText(segs, data, order, t) ==> ValidMeansFilled(segs, data, order)
  {
    if Inert(t) {
      forall segs, data, order | WithText(segs, data, order, t)
        ensures Simultaneous(segs, data, order) && ValidMeansFilled(segs, data, order)
      {
        assert forall i :: 0 <= i < |segs| ==> FormedBut(segs[i], t);
        InertIsHarmless(segs, data, order);
      }
    } else {
      var s1, d1, o1 := BadTextBreaksOrder(t);
      var s2, d2, o2 := BadTextLeavesPlaceholder(t);
    }
  }
}

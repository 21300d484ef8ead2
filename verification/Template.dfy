/**
 app/services/template_service.py: the preview finds the placeholders of a template with a regular expression
 and replaces them one variable at a time, in whatever order a set yields them.
 */
module Template {
  import Sequences

  // ---------- the string operations ----------

  /** [a-zA-Z0-9_] */
  predicate IsWord(c: char) {
    'a' <= c <= 'z' || 'A' <= c <= 'Z' || '0' <= c <= '9' || c == '_'
  }

  /** How many word characters s starts with. */
  function WordRun(s: string): (n: nat)
    ensures n <= |s| && (forall i :: 0 <= i < n ==> IsWord(s[i])) && (n < |s| ==> !IsWord(s[n]))
  {
    if s == "" || !IsWord(s[0]) then 0 else 1 + WordRun(s[1..])
  }

  /** The name captured by \{\{([a-zA-Z0-9_]+)\}\} at the start of s, if it matches there. */
  function HeadMatch(s: string): (name: string)
    ensures name == "" || |name| + 4 <= |s|
  {
    if |s| < 2 || s[0] != '{' || s[1] != '{' then ""
    else
      var n := WordRun(s[2..]);
      if n > 0 && |s| >= n + 4 && s[n+2] == '}' && s[n+3] == '}' then s[2..n+2] else ""
  }

  /** re.findall: leftmost matches, resuming after each. */
  function FindAll(s: string): seq<string> {
    if s == "" then []
    else
      var name := HeadMatch(s);
      if name == "" then FindAll(s[1..]) else [name] + FindAll(s[|name| + 4..])
  }

  predicate StartsWith(s: string, p: string) {
    p <= s
  }

  /** str.replace: leftmost occurrences, resuming after each; the replacement is not scanned again. */
  function Replace(s: string, what: string, value: string): string
    requires what != ""
  {
    if s == "" then ""
    else if StartsWith(s, what) then value + Replace(s[|what|..], what, value)
    else [s[0]] + Replace(s[1..], what, value)
  }

  function Mark(name: string): string {
    "{{" + name + "}}"
  }

  // ---------- templates as text and placeholders ----------

  datatype Segment = Text(text: string) | Slot(name: string)

  /** A non-empty beginning of a placeholder, short of the whole. */
  predicate Begins(s: string) {
    s != "" && s[0] == '{' &&
    (|s| == 1 || (s[1] == '{' && (var n := WordRun(s[2..]); n + 2 == |s| || (n > 0 && n + 3 == |s| && s[n+2] == '}'))))
  }

  /** Text in which no placeholder starts, neither one that it completes nor one that could go on after it. */
  predicate Inert(t: string) {
    forall i :: 0 <= i < |t| ==> HeadMatch(t[i..]) == "" && !Begins(t[i..])
  }

  predicate Name(n: string) {
    n != "" && forall i :: 0 <= i < |n| ==> IsWord(n[i])
  }

  predicate WellFormed(segs: seq<Segment>) {
    forall i :: 0 <= i < |segs| ==> match segs[i] case Text(t) => Inert(t) case Slot(n) => Name(n)
  }

  function Flat(segs: seq<Segment>): string {
    if segs == [] then ""
    else (match segs[0] case Text(t) => t case Slot(n) => Mark(n)) + Flat(segs[1..])
  }

  function Names(segs: seq<Segment>): seq<string> {
    if segs == [] then []
    else (if segs[0].Slot? then [segs[0].name] else []) + Names(segs[1..])
  }

  predicate BraceFree(t: string) {
    forall i :: 0 <= i < |t| ==> t[i] != '{' && t[i] != '}'
  }

  /** Simultaneous substitution of the variables of `names` that have a value. */
  function Fill(segs: seq<Segment>, data: map<string, string>, names: set<string>): (r: seq<Segment>)
    ensures |r| == |segs|
    ensures forall i :: 0 <= i < |segs| ==> r[i] == FillOne(segs[i], data, names)
  {
    if segs == [] then [] else [FillOne(segs[0], data, names)] + Fill(segs[1..], data, names)
  }

  function FillOne(seg: Segment, data: map<string, string>, names: set<string>): Segment {
    if seg.Slot? && seg.name in names && seg.name in data then Text(data[seg.name]) else seg
  }

  // ---------- scanning ----------

  lemma {:induction false} WordRunOf(n: string, rest: string)
    requires (forall i :: 0 <= i < |n| ==> IsWord(n[i])) && rest != "" && !IsWord(rest[0])
    ensures WordRun(n + rest) == |n|
  {
    if n == "" {
      assert n + rest == rest;
    } else {
      WordRunOf(n[1..], rest);
      assert (n + rest)[0] == n[0] && (n + rest)[1..] == n[1..] + rest;
    }
  }

  lemma MarkMatches(n: string, rest: string)
    requires Name(n)
    ensures HeadMatch(Mark(n) + rest) == n && (Mark(n) + rest)[|n| + 4..] == rest
  {
    var s := Mark(n) + rest;
    assert s[2..] == n + ("}}" + rest);
    WordRunOf(n, "}}" + rest);
    assert s[2..|n|+2] == n;
  }

  lemma {:induction false} AllWords(n: string)
    requires forall i :: 0 <= i < |n| ==> IsWord(n[i])
    ensures WordRun(n) == |n|
  {
    if n != "" {
      AllWords(n[1..]);
    }
  }

  lemma HeadMatchIsMark(s: string)
    requires HeadMatch(s) != ""
    ensures Name(HeadMatch(s)) && Mark(HeadMatch(s)) <= s
  {
    var n := HeadMatch(s);
    forall i | 0 <= i < |n| ensures IsWord(n[i]) {
      assert n[i] == s[2..][i];
    }
    forall i | 0 <= i < |n| + 4 ensures Mark(n)[i] == s[i] {
      assert 2 <= i < |n| + 2 ==> n[i - 2] == s[i];
    }
  }

  lemma MarkAtHead(n: string, s: string)
    requires Name(n) && Mark(n) <= s
    ensures HeadMatch(s) == n
  {
    MarkMatches(n, s[|n| + 4..]);
    assert s == Mark(n) + s[|n| + 4..];
  }

  lemma BeginningBegins(u: string, n: string)
    requires Name(n) && u != "" && |u| < |n| + 4 && u <= Mark(n)
    ensures Begins(u)
  {
    if |u| >= 2 {
      if |u| <= |n| + 2 {
        assert u[2..] == n[..|u| - 2];
        AllWords(n[..|u| - 2]);
      } else {
        assert u[2..] == n + "}";
        WordRunOf(n, "}");
      }
    }
  }

  /** Whatever follows inert text, no placeholder starts in it. */
  lemma InertHead(t: string, rest: string)
    requires Inert(t) && t != ""
    ensures HeadMatch(t + rest) == ""
    ensures (t + rest)[0] == t[0] && (t + rest)[1..] == t[1..] + rest
  {
    assert t[0..] == t;
    var n := HeadMatch(t + rest);
    if n != "" {
      HeadMatchIsMark(t + rest);
      if |n| + 4 <= |t| {
        MarkAtHead(n, t);
      } else {
        BeginningBegins(t, n);
      }
    }
  }

  lemma InertTail(t: string)
    requires Inert(t) && t != ""
    ensures Inert(t[1..])
  {
    forall i | 0 <= i < |t[1..]| ensures HeadMatch(t[1..][i..]) == "" && !Begins(t[1..][i..]) {
      assert t[1..][i..] == t[i + 1..];
    }
  }

  /** No placeholder starts inside inert text. */
  lemma {:induction false} FindSkipsInert(t: string, rest: string)
    requires Inert(t)
    ensures FindAll(t + rest) == FindAll(rest)
  {
    if t == "" {
      assert t + rest == rest;
    } else {
      InertHead(t, rest);
      InertTail(t);
      FindSkipsInert(t[1..], rest);
    }
  }

  /** The regular expression finds exactly the placeholders of a well-formed template, in order. */
  lemma {:induction false} FindAllFindsSlots(segs: seq<Segment>)
    requires WellFormed(segs)
    ensures FindAll(Flat(segs)) == Names(segs)
  {
    if segs != [] {
      FindAllFindsSlots(segs[1..]);
      match segs[0]
      case Text(t) => FindSkipsInert(t, Flat(segs[1..]));
      case Slot(n) =>
        MarkMatches(n, Flat(segs[1..]));
        assert Flat(segs) == Mark(n) + Flat(segs[1..]);
    }
  }

  // ---------- one replacement ----------

  lemma ReplaceSkipsHead(t: string, rest: string, v: string, value: string)
    requires Inert(t) && t != "" && Name(v)
    ensures Replace(t + rest, Mark(v), value) == [t[0]] + Replace(t[1..] + rest, Mark(v), value)
  {
    InertHead(t, rest);
    if StartsWith(t + rest, Mark(v)) {
      MarkAtHead(v, t + rest);
    }
  }

  lemma {:induction false} ReplaceSkipsInert(t: string, rest: string, v: string, value: string)
    requires Inert(t) && Name(v)
    ensures Replace(t + rest, Mark(v), value) == t + Replace(rest, Mark(v), value)
  {
    if t == "" {
      assert t + rest == rest;
    } else {
      ReplaceSkipsHead(t, rest, v, value);
      InertTail(t);
      ReplaceSkipsInert(t[1..], rest, v, value);
      assert t == [t[0]] + t[1..];
      Sequences.Regroup([t[0]], t[1..], Replace(rest, Mark(v), value));
    }
  }

  /** Two placeholders with different names do not start alike. */
  lemma MarksDiffer(n: string, v: string, rest: string)
    requires Name(n) && Name(v) && n != v
    ensures !StartsWith(Mark(n) + rest, Mark(v))
  {
    var s := Mark(n) + rest;
    if StartsWith(s, Mark(v)) {
      var after := s[|v| + 4..];
      assert s == Mark(v) + after;
      MarkMatches(v, after);
      MarkMatches(n, rest);
    }
  }

  lemma ReplaceSkipsOtherSlot(n: string, rest: string, v: string, value: string)
    requires Name(n) && Name(v) && n != v
    ensures Replace(Mark(n) + rest, Mark(v), value) == Mark(n) + Replace(rest, Mark(v), value)
  {
    MarksDiffer(n, v, rest);
    var tail := MarkTail(n);
    assert Mark(n) == "{" + tail && (Mark(n) + rest)[1..] == tail + rest && (Mark(n) + rest)[0] == '{';
    MarkTailIsInert(n);
    ReplaceSkipsInert(tail, rest, v, value);
    Sequences.Regroup("{", tail, Replace(rest, Mark(v), value));
  }

  function MarkTail(n: string): string {
    "{" + n + "}}"
  }

  lemma NoBraceIsInert(t: string)
    requires forall i :: 0 <= i < |t| ==> t[i] != '{'
    ensures Inert(t)
  {
    forall i | 0 <= i < |t| ensures HeadMatch(t[i..]) == "" && !Begins(t[i..]) {
      assert t[i..][0] == t[i];
    }
  }

  lemma MarkTailIsInert(n: string)
    requires Name(n)
    ensures Inert(MarkTail(n))
  {
    var tail := MarkTail(n);
    forall i | 0 <= i < |tail| ensures HeadMatch(tail[i..]) == "" && !Begins(tail[i..]) {
      assert tail[i..][0] == tail[i];
      if i == 0 {
        assert tail[i..][1] == n[0];
      } else {
        assert i <= |n| ==> tail[i] == n[i-1];
      }
    }
  }

  lemma ReplaceTakesOwnSlot(rest: string, v: string, value: string)
    ensures Replace(Mark(v) + rest, Mark(v), value) == value + Replace(rest, Mark(v), value)
  {
    assert (Mark(v) + rest)[..|Mark(v)|] == Mark(v) && (Mark(v) + rest)[|Mark(v)|..] == rest;
  }

  /** Put `value` into every slot named v. */
  function FillName(segs: seq<Segment>, v: string, value: string): seq<Segment> {
    if segs == [] then []
    else [if segs[0] == Slot(v) then Text(value) else segs[0]] + FillName(segs[1..], v, value)
  }

  /** str.replace of one placeholder fills exactly the slots of that name; the value may be anything. */
  lemma {:induction false} ReplaceFillsSlots(segs: seq<Segment>, v: string, value: string)
    requires WellFormed(segs) && Name(v)
    ensures Replace(Flat(segs), Mark(v), value) == Flat(FillName(segs, v, value))
  {
    if segs != [] {
      var rest := Flat(segs[1..]);
      ReplaceFillsSlots(segs[1..], v, value);
      match segs[0]
      case Text(t) => ReplaceSkipsInert(t, rest, v, value);
      case Slot(n) =>
        assert Flat(segs) == Mark(n) + rest;
        if n == v {
          ReplaceTakesOwnSlot(rest, v, value);
        } else {
          ReplaceSkipsOtherSlot(n, rest, v, value);
        }
      assert FillName(segs, v, value)[1..] == FillName(segs[1..], v, value);
    }
  }

  // ---------- the preview ----------

  predicate InertData(data: map<string, string>) {
    forall k :: k in data ==> Inert(data[k])
  }

  lemma FillKeepsForm(segs: seq<Segment>, data: map<string, string>, names: set<string>)
    requires WellFormed(segs) && InertData(data)
    ensures WellFormed(Fill(segs, data, names))
  {}

  /** Filling one more variable in an already partly filled template. */
  lemma {:induction false} FillOneMore(segs: seq<Segment>, data: map<string, string>, names: set<string>, v: string)
    requires v in data
    ensures FillName(Fill(segs, data, names), v, data[v]) == Fill(segs, data, names + {v})
  {
    if segs != [] {
      FillOneMore(segs[1..], data, names, v);
      assert Fill(segs, data, names)[1..] == Fill(segs[1..], data, names);
    }
  }

  lemma {:induction false} FillMissing(segs: seq<Segment>, data: map<string, string>, names: set<string>, v: string)
    requires v !in data
    ensures Fill(segs, data, names + {v}) == Fill(segs, data, names)
  {}

  lemma {:induction false} FillNothing(segs: seq<Segment>, data: map<string, string>)
    ensures Fill(segs, data, {}) == segs
  {}

  lemma {:induction false} NamesAreNames(segs: seq<Segment>)
    requires WellFormed(segs)
    ensures forall n :: n in Names(segs) ==> Name(n)
    ensures forall i :: 0 <= i < |segs| && segs[i].Slot? ==> segs[i].name in Names(segs)
  {
    if segs != [] {
      assert forall i :: 0 <= i < |segs[1..]| ==> segs[1..][i] == segs[i+1];
      NamesAreNames(segs[1..]);
    }
  }

  function Missing(names: seq<string>, data: map<string, string>): seq<string> {
    if names == [] then []
    else (if names[0] in data then [] else [names[0]]) + Missing(names[1..], data)
  }

  /** The placeholders left after substitution are those without a value. */
  lemma {:induction false} NamesAfterFill(segs: seq<Segment>, data: map<string, string>, names: set<string>)
    requires forall i :: 0 <= i < |segs| && segs[i].Slot? ==> segs[i].name in names
    ensures Names(Fill(segs, data, names)) == Missing(Names(segs), data)
  {
    if segs != [] {
      assert forall i :: 0 <= i < |segs[1..]| ==> segs[1..][i] == segs[i+1];
      NamesAfterFill(segs[1..], data, names);
      assert Fill(segs, data, names)[1..] == Fill(segs[1..], data, names);
      if segs[0].Slot? {
        assert Names(segs)[1..] == Names(segs[1..]);
      } else {
        assert Names(segs) == Names(segs[1..]);
      }
    }
  }

  lemma {:induction false} NoneMissing(names: seq<string>, data: map<string, string>)
    ensures Missing(names, data) == [] <==> forall n :: n in names ==> n in data
  {
    if names != [] {
      NoneMissing(names[1..], data);
      assert forall n :: n in names <==> n == names[0] || n in names[1..];
    }
  }

  lemma {:induction false} MissingOnes(names: seq<string>, data: map<string, string>)
    ensures forall n :: n in Missing(names, data) <==> n in names && n !in data
    ensures Sequences.Distinct(names) ==> Sequences.Distinct(Missing(names, data))
  {
    if names != [] {
      var rest := Missing(names[1..], data);
      MissingOnes(names[1..], data);
      assert forall n :: n in names <==> n == names[0] || n in names[1..];
      if Sequences.Distinct(names) {
        assert Sequences.Distinct(names[1..]);
        forall i | 0 <= i < |rest| ensures rest[i] != names[0] {
          assert rest[i] in names[1..];
        }
      }
    }
  }

  lemma FillEverything(segs: seq<Segment>, data: map<string, string>, names: set<string>)
    requires forall i :: 0 <= i < |segs| && segs[i].Slot? ==> segs[i].name in names
    ensures Fill(segs, data, names) == Fill(segs, data, data.Keys)
  {}

  // ---------- orders ----------

  /** Sequential replacement in a given order. */
  function RenderInOrder(content: string, order: seq<string>, data: map<string, string>): string
    decreases |order|
  {
    if order == [] then content
    else if order[0] in data then RenderInOrder(Replace(content, Mark(order[0]), data[order[0]]), order[1..], data)
    else RenderInOrder(content, order[1..], data)
  }

  /** Any order of the variables, with or without repetitions, gives the simultaneous substitution. */
  lemma {:induction false} AnyOrderIsSimultaneous(segs: seq<Segment>, order: seq<string>, data: map<string, string>, done: set<string>)
    requires WellFormed(segs) && InertData(data)
    requires forall v :: v in order ==> Name(v)
    requires forall i :: 0 <= i < |segs| && segs[i].Slot? ==> segs[i].name in done || segs[i].name in order
    ensures RenderInOrder(Flat(Fill(segs, data, done)), order, data) == Flat(Fill(segs, data, data.Keys))
    decreases |order|
  {
    if order == [] {
      FillEverything(segs, data, done);
    } else {
      var v := order[0];
      assert forall w :: w in order <==> w == v || w in order[1..];
      if v in data {
        FillKeepsForm(segs, data, done);
        ReplaceFillsSlots(Fill(segs, data, done), v, data[v]);
        FillOneMore(segs, data, done, v);
      } else {
        FillMissing(segs, data, done, v);
      }
      AnyOrderIsSimultaneous(segs, order[1..], data, done + {v});
    }
  }

  /** The names of a set, one after another in some order. */
  ghost predicate Listing(order: seq<string>, names: seq<string>) {
    && (forall v :: v in order <==> v in names)
    && (forall i, j :: 0 <= i < j < |order| ==> order[i] != order[j])
  }

  lemma {:induction false} RenderAppend(content: string, order: seq<string>, v: string, data: map<string, string>)
    ensures RenderInOrder(content, order + [v], data)
      == var before := RenderInOrder(content, order, data);
         if v in data then Replace(before, Mark(v), data[v]) else before
    ensures Missing(order + [v], data) == Missing(order, data) + if v in data then [] else [v]
    decreases |order|
  {
    if order == [] {
      assert [] + [v] == [v] && [v][1..] == [];
    } else {
      assert (order + [v])[0] == order[0] && (order + [v])[1..] == order[1..] + [v];
      RenderAppend(if order[0] in data then Replace(content, Mark(order[0]), data[order[0]]) else content, order[1..], v, data);
      Sequences.Regroup(if order[0] in data then [] else [order[0]], Missing(order[1..], data), if v in data then [] else [v]);
    }
  }

  datatype Preview = Preview(rendered: string, missing: seq<string>, isValid: bool)

  /** preview_template, for any content; `order` is the one in which the set yields its elements. */
  method PreviewTemplate(content: string, data: map<string, string>) returns (r: Preview, ghost order: seq<string>)
    ensures Listing(order, FindAll(content))
    ensures r.rendered == RenderInOrder(content, order, data)
    ensures r.missing == Missing(order, data)
    ensures forall v :: v in r.missing <==> v in FindAll(content) && v !in data
    ensures forall i, j :: 0 <= i < j < |r.missing| ==> r.missing[i] != r.missing[j]
    ensures r.isValid <==> forall n :: n in FindAll(content) ==> n in data
  {
    var variables := FindAll(content);
    var missing: seq<string> := [];
    var rendered := content;
    order := [];
    var rest := set v | v in variables;
    while rest != {}
      invariant forall v :: v in variables <==> v in order || v in rest
      invariant forall v :: v in order ==> v !in rest
      invariant forall i, j :: 0 <= i < j < |order| ==> order[i] != order[j]
      invariant rendered == RenderInOrder(content, order, data)
      invariant missing == Missing(order, data)
      decreases |rest|
    {
      var v :| v in rest;
      RenderAppend(content, order, v, data);
      if v in data {
        rendered := Replace(rendered, Mark(v), data[v]);
      } else {
        missing := missing + [v];
      }
      rest := rest - {v};
      order := order + [v];
    }
    NoneMissing(order, data);
    MissingOnes(order, data);
    r := Preview(rendered, missing, |missing| == 0);
  }

  /**
   For a well-formed template and inert values, whatever the order, the preview is the simultaneous substitution,
   its placeholders are those without a value, and it is called valid exactly when no placeholder is left in it.
   */
  lemma PreviewIsSimultaneous(segs: seq<Segment>, data: map<string, string>, order: seq<string>)
    requires WellFormed(segs) && InertData(data) && Listing(order, FindAll(Flat(segs)))
    ensures var rendered := RenderInOrder(Flat(segs), order, data);
      && rendered == Flat(Fill(segs, data, data.Keys))
      && FindAll(rendered) == Missing(FindAll(Flat(segs)), data)
      && (FindAll(rendered) == [] <==> forall n :: n in FindAll(Flat(segs)) ==> n in data)
  {
    FindAllFindsSlots(segs);
    NamesAreNames(segs);
    FillNothing(segs, data);
    AnyOrderIsSimultaneous(segs, order, data, {});
    var all := set v | v in order;
    FillEverything(segs, data, all);
    FillKeepsForm(segs, data, all);
    FindAllFindsSlots(Fill(segs, data, all));
    NamesAfterFill(segs, data, all);
    NoneMissing(Names(segs), data);
  }

  /** Braces only in placeholders, and none in the values: the common case. */
  lemma BraceFreePreview(segs: seq<Segment>, data: map<string, string>, order: seq<string>)
    requires forall i :: 0 <= i < |segs| ==> match segs[i] case Text(t) => BraceFree(t) case Slot(n) => Name(n)
    requires forall n :: n in data ==> BraceFree(data[n])
    requires Listing(order, FindAll(Flat(segs)))
    ensures var rendered := RenderInOrder(Flat(segs), order, data);
      && rendered == Flat(Fill(segs, data, data.Keys))
      && (FindAll(rendered) == [] <==> forall n :: n in FindAll(Flat(segs)) ==> n in data)
  {
    forall t | BraceFree(t) ensures Inert(t) {
      NoBraceIsInert(t);
    }
    assert WellFormed(segs) && InertData(data);
    PreviewIsSimultaneous(segs, data, order);
  }

  /** Two orders of the same variables give the same text. */
  lemma OrderDoesNotMatter(segs: seq<Segment>, one: seq<string>, two: seq<string>, data: map<string, string>)
    requires WellFormed(segs) && InertData(data)
    requires multiset(one) == multiset(two) && forall v :: v in one <==> v in Names(segs)
    ensures RenderInOrder(Flat(segs), one, data) == RenderInOrder(Flat(segs), two, data) == Flat(Fill(segs, data, data.Keys))
  {
    NamesAreNames(segs);
    FillNothing(segs, data);
    forall v ensures v in one <==> v in two {
      assert v in multiset(one) <==> v in multiset(two);
    }
    AnyOrderIsSimultaneous(segs, one, data, {});
    AnyOrderIsSimultaneous(segs, two, data, {});
  }

  function Shown(x: Segment): string {
    match x case Text(t) => t case Slot(n) => Mark(n)
  }

  lemma FlatTwo(x: Segment, y: Segment)
    ensures Flat([x, y]) == Shown(x) + Shown(y)
  {
    assert [x, y][1..] == [y] && [y][1..] == [];
    assert Flat([y]) == Shown(y) + "" == Shown(y);
  }

  lemma FillTwo(x: Segment, y: Segment, v: string, value: string)
    ensures FillName([x, y], v, value) == [if x == Slot(v) then Text(value) else x, if y == Slot(v) then Text(value) else y]
  {
    assert [x, y][1..] == [y] && [y][1..] == [];
    assert FillName([y], v, value) == [if y == Slot(v) then Text(value) else y];
  }

  /** One replacement in a template of two segments. */
  lemma ReplaceTwo(x: Segment, y: Segment, v: string, value: string)
    requires WellFormed([x, y]) && Name(v)
    ensures Replace(Shown(x) + Shown(y), Mark(v), value)
      == (if x == Slot(v) then value else Shown(x)) + (if y == Slot(v) then value else Shown(y))
  {
    ReplaceFillsSlots([x, y], v, value);
    FillTwo(x, y, v, value);
    FlatTwo(x, y);
    FlatTwo(if x == Slot(v) then Text(value) else x, if y == Slot(v) then Text(value) else y);
  }

  lemma InOrder(content: string, v: string, w: string, data: map<string, string>)
    requires v in data && w in data
    ensures RenderInOrder(content, [v, w], data) == Replace(Replace(content, Mark(v), data[v]), Mark(w), data[w])
  {
    assert [v, w][1..] == [w] && [w][1..] == [];
    var once := Replace(content, Mark(v), data[v]);
    assert RenderInOrder(once, [w], data) == Replace(once, Mark(w), data[w]);
  }

  /** A value that is itself a placeholder makes the result depend on the order of the set. */
  lemma BracesInValuesExposeTheOrder(v: string, w: string, x: string)
    requires Name(v) && Name(w) && v != w && Inert(x)
    ensures var data := map[v := Mark(w), w := x]; var content := Mark(v) + Mark(w);
      RenderInOrder(content, [v, w], data) == x + x && RenderInOrder(content, [w, v], data) == Mark(w) + x
  {
    InOrder(Mark(v) + Mark(w), v, w, map[v := Mark(w), w := x]);
    InOrder(Mark(v) + Mark(w), w, v, map[v := Mark(w), w := x]);
    FirstThenSecond(v, w, x);
    SecondThenFirst(v, w, x);
  }

  lemma FirstThenSecond(v: string, w: string, x: string)
    requires Name(v) && Name(w) && v != w && Inert(x)
    ensures Replace(Replace(Mark(v) + Mark(w), Mark(v), Mark(w)), Mark(w), x) == x + x
  {
    ReplaceTwo(Slot(v), Slot(w), v, Mark(w));
    ReplaceTwo(Slot(w), Slot(w), w, x);
  }

  lemma SecondThenFirst(v: string, w: string, x: string)
    requires Name(v) && Name(w) && v != w && Inert(x)
    ensures Replace(Replace(Mark(v) + Mark(w), Mark(w), x), Mark(v), Mark(w)) == Mark(w) + x
  {
    ReplaceTwo(Slot(v), Slot(w), w, x);
    ReplaceTwo(Slot(v), Text(x), v, Mark(w));
  }

  lemma ThirdBraceBlocks(s: string, rest: string, v: string, value: string)
    requires s == "{{{" + rest && Name(v)
    ensures FindAll(s) == FindAll(s[1..])
    ensures Replace(s, Mark(v), value) == "{" + Replace(s[1..], Mark(v), value)
  {
    assert s[2] == '{' && WordRun(s[2..]) == 0;
    assert Mark(v)[2] == v[0];
  }

  lemma FindOne(name: string, rest: string)
    requires Name(name) && Inert(rest)
    ensures FindAll(Mark(name) + rest) == [name]
  {
    MarkMatches(name, rest);
    FindSkipsInert(rest, "");
    assert rest + "" == rest;
  }

  lemma ReplaceOne(name: string, rest: string, value: string)
    requires Name(name) && Inert(rest)
    ensures Replace(Mark(name) + rest, Mark(name), value) == value + rest
  {
    ReplaceTakesOwnSlot(rest, name, value);
    ReplaceSkipsInert(rest, "", name, value);
    assert rest + "" == rest;
  }

  function Braced(s: string): string {
    "{" + s
  }

  lemma PeelBrace(name: string, rest: string, value: string)
    requires Name(name)
    ensures FindAll(Braced(Mark(name) + rest)) == FindAll(Mark(name) + rest)
    ensures Replace(Braced(Mark(name) + rest), Mark(name), value) == Braced(Replace(Mark(name) + rest, Mark(name), value))
  {
    var s := Braced(Mark(name) + rest);
    assert s[1..] == Mark(name) + rest;
    assert s == "{{{" + (name + "}}" + rest);
    ThirdBraceBlocks(s, name + "}}" + rest, name, value);
  }

  lemma PeelOuterBrace(name: string, rest: string, value: string)
    requires Name(name)
    ensures FindAll(Braced(Braced(Mark(name) + rest))) == FindAll(Braced(Mark(name) + rest))
    ensures Replace(Braced(Braced(Mark(name) + rest)), Mark(name), value) == Braced(Replace(Braced(Mark(name) + rest), Mark(name), value))
  {
    var s := Braced(Braced(Mark(name) + rest));
    assert s[1..] == Braced(Mark(name) + rest);
    assert s == "{{{" + ("{" + name + "}}" + rest);
    ThirdBraceBlocks(s, "{" + name + "}}" + rest, name, value);
  }

  lemma MarkIsBraced(value: string)
    ensures Braced(Braced(value + "}}")) == Mark(value)
  {}

  lemma FindOnly(name: string)
    requires Name(name)
    ensures FindAll(Mark(name)) == [name]
  {
    FindOne(name, "");
    assert Mark(name) + "" == Mark(name);
  }

  /** The characters that a name may have, by their ASCII codes: digits, capitals, underscore, small letters. */
  lemma WordCodes(c: char)
    ensures IsWord(c) <==> 48 <= c as int <= 57 || 65 <= c as int <= 90 || c as int == 95 || 97 <= c as int <= 122
  {}

  /** What a placeholder looks like, and that its value takes its place. */
  lemma PlaceholderSyntax(name: string, value: string)
    requires Name(name)
    ensures FindAll("{{" + name + "}}") == [name]
    ensures RenderInOrder("{{" + name + "}}", [name], map[name := value]) == value
  {
    var m := "{{" + name + "}}";
    FindOnly(name);
    ReplaceOne(name, "", value);
    assert m + "" == m && value + "" == value;
    OneReplacement(m, name, value);
  }

  lemma OneReplacement(content: string, name: string, value: string)
    ensures RenderInOrder(content, [name], map[name := value]) == Replace(content, Mark(name), value)
  {
    assert [name][1..] == [];
  }

  /** Braces around a placeholder: the preview calls the result valid although a placeholder is left. */
  lemma StrayBracesLeaveAPlaceholder(name: string, value: string)
    requires Name(name) && Name(value)
    ensures var content := Braced(Braced(Mark(name) + "}}"));
      FindAll(content) == [name] && FindAll(Replace(content, Mark(name), value)) == [value]
  {
    PeelOuterBrace(name, "}}", value);
    PeelBrace(name, "}}", value);
    FindOne(name, "}}");
    ReplaceOne(name, "}}", value);
    MarkIsBraced(value);
    FindOnly(value);
  }
}

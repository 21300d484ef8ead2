/**
 Onboardings that overlap. Each probes one candidate slug after another and inserts its organization later, without a
 lock; the unique index on the slug column refuses an insert whose slug has been taken since.
 */
module SlugRaces {
  import opened Types
  import opened Slug
  import Sequences

  /** An onboarding under way: its base, the candidate it is at, and when it found that one free. */
  datatype Search = Search(slugBase: string, k: nat, freeAt: Option<nat>)

  /** The slugs in the order of their inserts; `refused` is history. */
  datatype Desk = Desk(slugs: seq<string>, searches: map<Id, Search>, refused: set<Id>)

  datatype Action =
    | Begin(p: Id, name: string)
    | Probe(p: Id)
    | Insert(p: Id)
    | Add(slug: string)   // any other organization

  predicate Can(d: Desk, a: Action) {
    match a
    case Begin(p, _) => p !in d.searches && p !in d.refused
    case Probe(p) => p in d.searches && d.searches[p].freeAt.None?
    case Insert(p) => p in d.searches && d.searches[p].freeAt.Some?
    case Add(slug) => slug !in d.slugs
  }

  function SlugOf(x: Search): string {
    Candidate(x.slugBase, x.k)
  }

  function Do(d: Desk, a: Action): Desk
    requires Can(d, a)
  {
    match a
    case Begin(p, name) => d.(searches := d.searches[p := Search(Slugify(name), 0, None)])
    case Probe(p) =>
      var x := d.searches[p];
      d.(searches := d.searches[p := if SlugOf(x) in d.slugs then x.(k := x.k + 1) else x.(freeAt := Some(|d.slugs|))])
    case Insert(p) =>
      var d' := d.(searches := d.searches - {p});
      if SlugOf(d.searches[p]) in d.slugs then d'.(refused := d.refused + {p})
      else d'.(slugs := d.slugs + [SlugOf(d.searches[p])])
    case Add(slug) => d.(slugs := d.slugs + [slug])
  }

  predicate ValidRun(d: Desk, run: seq<Action>)
    decreases |run|
  {
    run == [] || (Can(d, run[0]) && ValidRun(Do(d, run[0]), run[1..]))
  }

  function After(d: Desk, run: seq<Action>): Desk
    requires ValidRun(d, run)
    decreases |run|
  {
    if run == [] then d else After(Do(d, run[0]), run[1..])
  }

  // ---------- what every interleaving keeps ----------

  /** Every earlier candidate is taken, and the one found free was free then. */
  predicate Searched(slugs: seq<string>, x: Search) {
    && AllTaken(x.slugBase, x.k, Sequences.Elements(slugs))
    && (x.freeAt.Some? ==> x.freeAt.value <= |slugs| && SlugOf(x) !in slugs[..x.freeAt.value])
  }

  ghost predicate Inv(d: Desk) {
    Sequences.Distinct(d.slugs) && d.searches.Keys !! d.refused && forall p :: p in d.searches ==> Searched(d.slugs, d.searches[p])
  }

  lemma SearchedStays(slugs: seq<string>, x: Search, slug: string)
    requires Searched(slugs, x)
    ensures Searched(slugs + [slug], x)
  {
    forall j | 0 <= j < x.k ensures Candidate(x.slugBase, j) in Sequences.Elements(slugs + [slug]) {
      assert Candidate(x.slugBase, j) in Sequences.Elements(slugs);
    }
    if x.freeAt.Some? {
      assert (slugs + [slug])[..x.freeAt.value] == slugs[..x.freeAt.value];
    }
  }

  lemma ProbeSearches(slugs: seq<string>, x: Search)
    requires Searched(slugs, x) && x.freeAt.None?
    ensures SlugOf(x) in slugs ==> Searched(slugs, x.(k := x.k + 1))
    ensures SlugOf(x) !in slugs ==> Searched(slugs, x.(freeAt := Some(|slugs|)))
  {
    assert slugs[..|slugs|] == slugs;
    assert SlugOf(x) in slugs <==> SlugOf(x) in Sequences.Elements(slugs);
  }

  lemma GrowthKeepsInv(d: Desk, slug: string)
    requires Inv(d) && slug !in d.slugs
    ensures Inv(d.(slugs := d.slugs + [slug]))
  {
    forall p | p in d.searches ensures Searched(d.slugs + [slug], d.searches[p]) {
      SearchedStays(d.slugs, d.searches[p], slug);
    }
  }

  lemma StepKeepsInv(d: Desk, a: Action)
    requires Inv(d) && Can(d, a)
    ensures Inv(Do(d, a))
  {
    match a
    case Probe(p) => ProbeSearches(d.slugs, d.searches[p]);
    case Insert(p) =>
      if SlugOf(d.searches[p]) !in d.slugs {
        GrowthKeepsInv(d, SlugOf(d.searches[p]));
      }
    case Add(slug) => GrowthKeepsInv(d, slug);
    case Begin(_, _) =>
  }

  lemma {:induction false} RunKeepsInv(d: Desk, run: seq<Action>)
    requires Inv(d) && ValidRun(d, run)
    ensures Inv(After(d, run))
    decreases |run|
  {
    if run != [] {
      StepKeepsInv(d, run[0]);
      RunKeepsInv(Do(d, run[0]), run[1..]);
    }
  }

  /** The slug was inserted after this search had found it free. */
  predicate TakenSince(slugs: seq<string>, x: Search)
    requires x.freeAt.Some? && x.freeAt.value <= |slugs|
  {
    SlugOf(x) in slugs[x.freeAt.value..]
  }

  /**
   In every interleaving slugs stay unique, and an insert is refused if and only if its slug was inserted after it had
   been found free. An insert that is not refused gets the candidate that is the first free one at that moment.
   */
  lemma InsertRefusedIff(slugs: seq<string>, run: seq<Action>, p: Id)
    requires Sequences.Distinct(slugs) && ValidRun(Desk(slugs, map[], {}), run)
    requires Can(After(Desk(slugs, map[], {}), run), Insert(p))
    ensures Sequences.Distinct(Do(After(Desk(slugs, map[], {}), run), Insert(p)).slugs)
    ensures var d := After(Desk(slugs, map[], {}), run);
      && Searched(d.slugs, d.searches[p])
      && (p in Do(d, Insert(p)).refused <==> TakenSince(d.slugs, d.searches[p]))
      && (TakenSince(d.slugs, d.searches[p]) <==>
            !FirstFree(d.searches[p].slugBase, d.searches[p].k, Sequences.Elements(d.slugs)))
  {
    var d := After(Desk(slugs, map[], {}), run);
    RunKeepsInv(Desk(slugs, map[], {}), run);
    StepKeepsInv(d, Insert(p));
    var x := d.searches[p];
    assert d.slugs == d.slugs[..x.freeAt.value] + d.slugs[x.freeAt.value..];
    assert SlugOf(x) in d.slugs <==> SlugOf(x) in Sequences.Elements(d.slugs);
  }

  lemma Runs(d: Desk, a: Action, rest: seq<Action>)
    requires Can(d, a) && ValidRun(Do(d, a), rest)
    ensures ValidRun(d, [a] + rest) && After(d, [a] + rest) == After(Do(d, a), rest)
  {
    assert ([a] + rest)[1..] == rest;
  }

  /** Probing goes through the candidates in order and stops at the first free one. */
  lemma {:induction false} ProbesFindFirst(d: Desk, p: Id, k: nat) returns (run: seq<Action>)
    requires p in d.searches && d.searches[p].freeAt.None? && d.searches[p].k <= k
    requires forall j :: d.searches[p].k <= j < k ==> Candidate(d.searches[p].slugBase, j) in d.slugs
    requires Candidate(d.searches[p].slugBase, k) !in d.slugs
    ensures ValidRun(d, run)
    ensures After(d, run) == d.(searches := d.searches[p := Search(d.searches[p].slugBase, k, Some(|d.slugs|))])
    decreases k - d.searches[p].k
  {
    var d1 := Do(d, Probe(p));
    var rest: seq<Action> := [];
    if d.searches[p].k < k {
      rest := ProbesFindFirst(d1, p, k);
    }
    Runs(d, Probe(p), rest);
    run := [Probe(p)] + rest;
  }

  /** Undisturbed, an onboarding inserts its first free candidate; one taken before its insert is refused and adds none. */
  lemma OnboardingAlone(d: Desk, p: Id, name: string, k: nat) returns (run: seq<Action>)
    requires Can(d, Begin(p, name)) && (forall j :: 0 <= j < k ==> Candidate(Slugify(name), j) in d.slugs)
    requires Candidate(Slugify(name), k) !in d.slugs
    ensures ValidRun(d, run) && Can(After(d, run), Insert(p)) && After(d, run).slugs == d.slugs
    ensures Do(After(d, run), Insert(p)) == d.(slugs := d.slugs + [Candidate(Slugify(name), k)])
    ensures var d' := Do(After(d, run), Add(Candidate(Slugify(name), k)));
      && Can(d', Insert(p))
      && Do(d', Insert(p)) == d.(slugs := d.slugs + [Candidate(Slugify(name), k)], refused := d.refused + {p})
  {
    var d1 := Do(d, Begin(p, name));
    var rest := ProbesFindFirst(d1, p, k);
    Runs(d, Begin(p, name), rest);
    run := [Begin(p, name)] + rest;
    assert After(d, run).searches - {p} == d.searches;
  }

  /** Both have found the slug free. */
  lemma BothInsert(d: Desk) returns (run: seq<Action>)
    requires d.searches.Keys == {0, 1} && d.refused == {} && d.slugs == []
    requires d.searches[0] == d.searches[1] && d.searches[0].freeAt.Some?
    ensures ValidRun(d, run) && After(d, run).slugs == [SlugOf(d.searches[0])] && After(d, run).refused == {1}
  {
    var d1 := Do(d, Insert(0));
    Runs(d1, Insert(1), []);
    Runs(d, Insert(0), [Insert(1)] + []);
    run := [Insert(0)] + ([Insert(1)] + []);
  }

  /** Two onboardings of one name at once: the second is refused, though it had found a free slug. */
  lemma SecondOnboardingIsRefused(name: string) returns (run: seq<Action>)
    ensures ValidRun(Desk([], map[], {}), run)
    ensures After(Desk([], map[], {}), run).slugs == [Slugify(name)] && After(Desk([], map[], {}), run).refused == {1}
  {
    var d := Desk([], map[], {});
    var d1 := Do(d, Begin(0, name));
    var d2 := Do(d1, Begin(1, name));
    var d3 := Do(d2, Probe(0));
    var d4 := Do(d3, Probe(1));
    var rest := BothInsert(d4);
    Runs(d3, Probe(1), rest);
    Runs(d2, Probe(0), [Probe(1)] + rest);
    Runs(d1, Begin(1, name), [Probe(0)] + ([Probe(1)] + rest));
    Runs(d, Begin(0, name), [Begin(1, name)] + ([Probe(0)] + ([Probe(1)] + rest)));
    run := [Begin(0, name)] + ([Begin(1, name)] + ([Probe(0)] + ([Probe(1)] + rest)));
  }
}

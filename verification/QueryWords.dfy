/** What a sanitized query keeps of the raw one. */
module QueryWords {
  import opened Basics
  import opened QuerySanitizer

  // ----- Fields -----

  /** The characters from `a` to `b` are a maximal run without white space. */
  ghost predicate IsRun(cl: Classes, s: string, a: nat, b: nat) {
    && a < b <= |s| && (forall i :: a <= i < b ==> !cl.space(s[i]))
    && (a > 0 ==> cl.space(s[a - 1])) && (b < |s| ==> cl.space(s[b]))
  }

  /** The field is the maximal run that begins at `a`. */
  ghost predicate StandsAt(cl: Classes, s: string, field: string, a: nat) {
    IsRun(cl, s, a, a + |field|) && field == s[a..a + |field|]
  }

  /** The fields stand at these places of the text, in order. */
  ghost predicate StandAt(cl: Classes, s: string, fields: seq<string>, starts: seq<nat>) {
    && |starts| == |fields|
    && (forall k :: 0 <= k < |fields| ==> StandsAt(cl, s, fields[k], starts[k]))
    && (forall k, l :: 0 <= k < l < |starts| ==> starts[k] < starts[l])
  }

  function Shifted(starts: seq<nat>, d: nat): (r: seq<nat>)
    ensures |r| == |starts| && forall k :: 0 <= k < |r| ==> r[k] == starts[k] + d
  {
    seq(|starts|, k requires 0 <= k < |starts| => starts[k] + d)
  }

  lemma StandsLater(cl: Classes, s: string, d: nat, field: string, a: nat)
    requires d <= |s| && (0 < d < |s| ==> cl.space(s[d - 1]) || cl.space(s[d]))
    requires StandsAt(cl, s[d..], field, a)
    ensures StandsAt(cl, s, field, a + d)
  {
    assert forall i :: 0 <= i < |s| - d ==> s[d..][i] == s[d + i];
    assert s[d..][a..a + |field|] == s[a + d..a + d + |field|];
  }

  lemma StandLater(cl: Classes, s: string, d: nat, fields: seq<string>, starts: seq<nat>)
    requires d <= |s| && (0 < d < |s| ==> cl.space(s[d - 1]) || cl.space(s[d]))
    requires StandAt(cl, s[d..], fields, starts)
    ensures StandAt(cl, s, fields, Shifted(starts, d))
  {
    forall k | 0 <= k < |fields|
      ensures StandsAt(cl, s, fields[k], starts[k] + d)
    {
      StandsLater(cl, s, d, fields[k], starts[k]);
    }
  }

  /** The fields of a text are maximal runs of it, in order. */
  lemma {:induction false} FieldsStand(cl: Classes, s: string) returns (starts: seq<nat>)
    ensures StandAt(cl, s, Fields(cl, s), starts)
    decreases |s|
  {
    if s == "" {
      starts := [];
    } else if cl.space(s[0]) {
      var rest := FieldsStand(cl, s[1..]);
      StandLater(cl, s, 1, Fields(cl, s[1..]), rest);
      starts := Shifted(rest, 1);
    } else {
      var n := RunLength(cl, s);
      assert n > 0;
      var rest := FieldsStand(cl, s[n..]);
      starts := [0] + Shifted(rest, n);
      StandLater(cl, s, n, Fields(cl, s[n..]), rest);
      assert StandsAt(cl, s, s[..n], 0);
      OneFieldBefore(cl, s, s[..n], Fields(cl, s[n..]), Shifted(rest, n));
    }
  }

  lemma OneFieldBefore(cl: Classes, s: string, field: string, fields: seq<string>, starts: seq<nat>)
    requires StandsAt(cl, s, field, 0) && StandAt(cl, s, fields, starts)
    requires forall k :: 0 <= k < |starts| ==> starts[k] > 0
    ensures StandAt(cl, s, [field] + fields, [0] + starts)
  {
  }

  lemma RunEarlier(cl: Classes, s: string, d: nat, a: nat, b: nat)
    requires IsRun(cl, s, a, b) && d <= a
    ensures IsRun(cl, s[d..], a - d, b - d) && s[d..][a - d..b - d] == s[a..b]
  {
    assert forall i :: 0 <= i < |s| - d ==> s[d..][i] == s[i + d];
  }

  lemma RunAtFront(cl: Classes, s: string, a: nat, b: nat)
    requires IsRun(cl, s, a, b) && !cl.space(s[0])
    ensures if a == 0 then b == RunLength(cl, s) else RunLength(cl, s) < a
  {
    var n := RunLength(cl, s);
    assert a > 0 ==> cl.space(s[a - 1]);
  }

  /** Every maximal run is a field. */
  lemma {:induction false} RunIsField(cl: Classes, s: string, a: nat, b: nat)
    requires IsRun(cl, s, a, b)
    ensures s[a..b] in Fields(cl, s)
    decreases |s|
  {
    if cl.space(s[0]) {
      RunEarlier(cl, s, 1, a, b);
      RunIsField(cl, s[1..], a - 1, b - 1);
    } else {
      var n := RunLength(cl, s);
      RunAtFront(cl, s, a, b);
      var first, rest := [s[..n]], Fields(cl, s[n..]);
      assert Fields(cl, s) == first + rest;
      if a == 0 {
        assert first[0] == s[a..b] && s[a..b] in first;
      } else {
        assert n > 0;
        RunEarlier(cl, s, n, a, b);
        RunIsField(cl, s[n..], a - n, b - n);
        assert s[a..b] in rest;
      }
    }
  }

  // ----- Words -----

  /** `w` is the characters of `s` at `places`, which are all its word characters from `from` on, in order. */
  ghost predicate IsWordsFrom(cl: Classes, s: string, from: nat, w: string, places: seq<nat>) {
    && SpelledAt(cl, s, from, w, places) && Rising(places)
    && forall i: nat :: from <= i < |s| && cl.word(s[i]) ==> i in places
  }

  predicate SpelledAt(cl: Classes, s: string, from: nat, w: string, places: seq<nat>) {
    && |places| == |w|
    && forall k :: 0 <= k < |w| ==> from <= places[k] < |s| && cl.word(s[places[k]]) && w[k] == s[places[k]]
  }

  predicate Rising(places: seq<nat>) {
    forall k, l :: 0 <= k < l < |places| ==> places[k] < places[l]
  }

  /** `w` is exactly the word characters of `s`, in order. */
  ghost predicate IsWords(cl: Classes, s: string, w: string, places: seq<nat>) {
    IsWordsFrom(cl, s, 0, w, places)
  }

  lemma {:induction false} WordsAre(cl: Classes, s: string) returns (places: seq<nat>)
    ensures IsWords(cl, s, WordsOnly(cl, s), places)
  {
    if s == "" {
      places := [];
    } else {
      var rest := WordsAre(cl, s[1..]);
      var w := WordsOnly(cl, s[1..]);
      places := Shifted(rest, 1);
      LaterWords(cl, s, w, rest, places);
      if cl.word(s[0]) {
        OneWordBefore(cl, s, w, places);
        places := [0] + places;
      } else {
        assert forall i: nat :: i < |s| && cl.word(s[i]) ==> i > 0;
      }
    }
  }

  lemma LaterWords(cl: Classes, s: string, w: string, rest: seq<nat>, places: seq<nat>)
    requires s != "" && IsWords(cl, s[1..], w, rest) && places == Shifted(rest, 1)
    ensures IsWordsFrom(cl, s, 1, w, places)
  {
    forall i: nat | 0 < i < |s| && cl.word(s[i])
      ensures i in places
    {
      assert s[1..][i - 1] == s[i];
      var k :| 0 <= k < |rest| && rest[k] == i - 1;
      assert places[k] == i;
    }
  }

  lemma OneMoreInFront(places: seq<nat>, i: nat)
    ensures i in [0] + places <==> i == 0 || i in places
    ensures Rising(places) && (forall k :: 0 <= k < |places| ==> places[k] > 0) ==> Rising([0] + places)
  {
  }

  lemma OneWordBefore(cl: Classes, s: string, w: string, places: seq<nat>)
    requires s != "" && cl.word(s[0]) && IsWordsFrom(cl, s, 1, w, places)
    ensures IsWords(cl, s, [s[0]] + w, [0] + places)
  {
    OneMoreInFront(places, 0);
    forall i: nat | i < |s| && cl.word(s[i])
      ensures i in [0] + places
    {
      OneMoreInFront(places, i);
    }
  }

  /** The same letters in any case. */
  predicate Spells(w: string, upper: string) {
    |w| == |upper| && forall i :: 0 <= i < |w| ==> w[i] == upper[i] || w[i] as int == upper[i] as int + 32
  }

  predicate Operator(w: string) {
    Spells(w, "AND") || Spells(w, "OR") || Spells(w, "NOT") || Spells(w, "NEAR")
  }

  lemma FoldIsSpelling(w: string, upper: string)
    requires forall i :: 0 <= i < |upper| ==> 'A' <= upper[i] <= 'Z'
    ensures EqualFold(w, upper) <==> Spells(w, upper)
  {
  }

  lemma ReservedIsOperator(w: string)
    ensures Reserved(w) <==> Operator(w)
  {
    FoldIsSpelling(w, "AND");
    FoldIsSpelling(w, "OR");
    FoldIsSpelling(w, "NOT");
    FoldIsSpelling(w, "NEAR");
  }

  // ----- Terms -----

  /** The term of a field is its word characters, in order, in quotes; there is none if it has no word character or
      they spell an operator. */
  ghost predicate IsTerm(cl: Classes, field: string, term: Option<string>) {
    exists w, places :: IsTermOf(cl, field, term, w, places)
  }

  ghost predicate IsTermOf(cl: Classes, field: string, term: Option<string>, w: string, places: seq<nat>) {
    IsWords(cl, field, w, places) && term == if w == "" || Operator(w) then None else Some("\"" + w + "\"")
  }

  lemma TermIs(cl: Classes, field: string)
    requires Sane(cl)
    ensures IsTerm(cl, field, Term(cl, field))
  {
    var places := WordsAre(cl, field);
    var w := WordsOnly(cl, field);
    TrimKeepsWords(cl, w);
    ReservedIsOperator(w);
    assert IsTermOf(cl, field, Term(cl, field), w, places);
  }

  /** The terms are those of the fields at `picked`, in order; no other field has one. */
  ghost predicate PickedFrom(cl: Classes, fields: seq<string>, terms: seq<string>, picked: seq<nat>) {
    && |picked| == |terms|
    && (forall k :: 0 <= k < |terms| ==> picked[k] < |fields| && IsTerm(cl, fields[picked[k]], Some(terms[k])))
    && (forall k, l :: 0 <= k < l < |terms| ==> picked[k] < picked[l])
    && (forall i: nat :: i < |fields| && i !in picked ==> IsTerm(cl, fields[i], None))
  }

  lemma {:induction false} TermsArePicked(cl: Classes, fields: seq<string>) returns (picked: seq<nat>)
    requires Sane(cl)
    ensures PickedFrom(cl, fields, Terms(cl, fields), picked)
  {
    if fields == [] {
      picked := [];
    } else {
      var n := |fields| - 1;
      var rest := TermsArePicked(cl, fields[..n]);
      TermIs(cl, fields[n]);
      picked := rest + if Term(cl, fields[n]).Some? then [n] else [];
      OneMoreField(cl, fields, rest);
    }
  }

  lemma OneMoreField(cl: Classes, fields: seq<string>, rest: seq<nat>)
    requires fields != [] && IsTerm(cl, fields[|fields| - 1], Term(cl, fields[|fields| - 1]))
    requires PickedFrom(cl, fields[..|fields| - 1], Terms(cl, fields[..|fields| - 1]), rest)
    ensures PickedFrom(cl, fields, Terms(cl, fields),
                       rest + if Term(cl, fields[|fields| - 1]).Some? then [|fields| - 1] else [])
  {
    var n := |fields| - 1;
    var picked := rest + if Term(cl, fields[n]).Some? then [n as nat] else [];
    forall i: nat | i < |fields| && i !in picked
      ensures IsTerm(cl, fields[i], None)
    {
      assert i < n ==> i !in rest && fields[..n][i] == fields[i];
      assert Term(cl, fields[n]).Some? ==> n in picked;
    }
  }

  /** Every field of the raw query that has word characters which spell no operator stands in the sanitized query, as
      exactly its word characters in order; the others are gone, and nothing is added. */
  lemma SanitizedQueryKeepsWords(cl: Classes, raw: string) returns (starts: seq<nat>, picked: seq<nat>)
    requires Sane(cl)
    ensures StandAt(cl, raw, Fields(cl, raw), starts)
    ensures forall a: nat, b: nat :: IsRun(cl, raw, a, b) ==> raw[a..b] in Fields(cl, raw)
    ensures PickedFrom(cl, Fields(cl, raw), Fields(cl, Sanitized(cl, raw)), picked)
  {
    starts := FieldsStand(cl, raw);
    forall a: nat, b: nat | IsRun(cl, raw, a, b)
      ensures raw[a..b] in Fields(cl, raw)
    {
      RunIsField(cl, raw, a, b);
    }
    picked := TermsArePicked(cl, Fields(cl, raw));
    SanitizedQueryIsSafe(cl, raw);
  }
}

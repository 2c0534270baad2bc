/** Sanitizing a raw full-text query into quoted terms. */
module QuerySanitizer {
  import opened Basics

  // The Unicode classes used: white space, and letters, numbers and underscore.
  datatype Classes = Classes(space: char -> bool, word: char -> bool)

  const CUTSET: string := "\"*^():"

  /** What is assumed of the classes. */
  ghost predicate Sane(cl: Classes) {
    && cl.space(' ') && !cl.space('"')
    && (forall c :: cl.space(c) ==> !cl.word(c))
    && (forall c :: c in CUTSET ==> !cl.word(c))
  }

  /** The length of the run of non-space characters at the front. */
  function RunLength(cl: Classes, s: string): (n: nat)
    ensures n <= |s|
    ensures forall i :: 0 <= i < n ==> !cl.space(s[i])
    ensures n < |s| ==> cl.space(s[n])
  {
    if s == "" || cl.space(s[0]) then 0 else 1 + RunLength(cl, s[1..])
  }

  /** The maximal runs of non-space characters. */
  function Fields(cl: Classes, s: string): seq<string> {
    if s == "" then []
    else if cl.space(s[0]) then Fields(cl, s[1..])
    else [s[..RunLength(cl, s)]] + Fields(cl, s[RunLength(cl, s)..])
  }

  /** The word characters of `s`, in order. */
  function WordsOnly(cl: Classes, s: string): (w: string)
    ensures forall i :: 0 <= i < |w| ==> cl.word(w[i])
  {
    if s == "" then ""
    else if cl.word(s[0]) then [s[0]] + WordsOnly(cl, s[1..])
    else WordsOnly(cl, s[1..])
  }

  function Trim(s: string): string {
    if s == "" then ""
    else if s[0] in CUTSET then Trim(s[1..])
    else if s[|s| - 1] in CUTSET then Trim(s[..|s| - 1])
    else s
  }

  function Upper(c: char): char {
    if 'a' <= c <= 'z' then c - 'a' + 'A' else c
  }

  predicate EqualFold(s: string, upper: string) {
    |s| == |upper| && forall i :: 0 <= i < |s| ==> Upper(s[i]) == upper[i]
  }

  predicate Reserved(s: string) {
    EqualFold(s, "AND") || EqualFold(s, "OR") || EqualFold(s, "NOT") || EqualFold(s, "NEAR")
  }

  function Quoted(w: string): string {
    "\"" + w + "\""
  }

  /** The quoted form of one field, or none when nothing searchable is left of it. */
  function Term(cl: Classes, field: string): Option<string> {
    var w := Trim(WordsOnly(cl, field));
    if Reserved(w) || w == "" then None else Some(Quoted(w))
  }

  function Terms(cl: Classes, fields: seq<string>): seq<string> {
    if fields == [] then [] else
    var t := Term(cl, fields[|fields| - 1]);
    Terms(cl, fields[..|fields| - 1]) + if t.Some? then [t.value] else []
  }

  function Join(terms: seq<string>): string {
    if |terms| == 0 then "" else if |terms| == 1 then terms[0] else terms[0] + " " + Join(terms[1..])
  }

  function Sanitized(cl: Classes, raw: string): string {
    Join(Terms(cl, Fields(cl, raw)))
  }

  method SanitizeFTS5Query(cl: Classes, raw: string) returns (query: string)
    ensures query == Sanitized(cl, raw)
  {
    var fields := Fields(cl, raw);
    var cleaned: seq<string> := [];
    for n := 0 to |fields|
      invariant cleaned == Terms(cl, fields[..n])
    {
      assert fields[..n + 1][..n] == fields[..n];
      var stripped := Trim(WordsOnly(cl, fields[n]));
      if Reserved(stripped) { continue; }
      if stripped == "" { continue; }
      cleaned := cleaned + [Quoted(stripped)];
    }
    assert fields[..|fields|] == fields;
    query := Join(cleaned);
  }

  // ----- What the result guarantees -----

  /** A quoted, non-empty run of word characters that is no operator. */
  predicate GoodTerm(cl: Classes, t: string) {
    |t| > 2 && t == Quoted(t[1..|t| - 1]) && !Reserved(t[1..|t| - 1])
    && forall i :: 1 <= i < |t| - 1 ==> cl.word(t[i])
  }

  lemma {:induction false} TrimKeepsWords(cl: Classes, s: string)
    requires Sane(cl) && forall i :: 0 <= i < |s| ==> cl.word(s[i])
    ensures Trim(s) == s
  {
  }

  lemma TermIsGood(cl: Classes, field: string)
    requires Sane(cl) && Term(cl, field).Some?
    ensures GoodTerm(cl, Term(cl, field).value)
  {
    var w := WordsOnly(cl, field);
    TrimKeepsWords(cl, w);
    assert Quoted(w)[1..|w| + 1] == w;
  }

  lemma {:induction false} TermsAreGood(cl: Classes, fields: seq<string>)
    requires Sane(cl)
    ensures forall i :: 0 <= i < |Terms(cl, fields)| ==> GoodTerm(cl, Terms(cl, fields)[i])
  {
    if fields != [] {
      TermsAreGood(cl, fields[..|fields| - 1]);
      if Term(cl, fields[|fields| - 1]).Some? {
        TermIsGood(cl, fields[|fields| - 1]);
      }
    }
  }

  lemma {:induction false} RunOfField(cl: Classes, t: string, rest: string)
    requires forall i :: 0 <= i < |t| ==> !cl.space(t[i])
    requires rest != "" ==> cl.space(rest[0])
    ensures RunLength(cl, t + rest) == |t|
  {
    if t == "" {
      assert t + rest == rest;
    } else {
      RunOfField(cl, t[1..], rest);
      assert (t + rest)[1..] == t[1..] + rest;
    }
  }

  /** Splitting the joined terms on white space gives the terms back. */
  lemma {:induction false} FieldsOfJoin(cl: Classes, terms: seq<string>)
    requires Sane(cl) && forall i :: 0 <= i < |terms| ==> GoodTerm(cl, terms[i])
    ensures Fields(cl, Join(terms)) == terms
  {
    if terms != [] {
      var t, rest := terms[0], if |terms| == 1 then "" else " " + Join(terms[1..]);
      var s := t + rest;
      assert Join(terms) == s by {
        assert t + "" == t;
        assert t + " " + Join(terms[1..]) == t + (" " + Join(terms[1..]));
      }
      forall i | 0 <= i < |t|
        ensures !cl.space(t[i])
      {
        assert i == 0 || i == |t| - 1 ==> t[i] == '"';
      }
      RunOfField(cl, t, rest);
      assert s[..|t|] == t && s[|t|..] == rest && s[0] == t[0];
      if |terms| > 1 {
        FieldsOfJoin(cl, terms[1..]);
        assert rest[1..] == Join(terms[1..]);
      }
      assert [t] + terms[1..] == terms;
    }
  }

  lemma {:induction false} WordsOfWords(cl: Classes, w: string, tail: string)
    requires forall i :: 0 <= i < |w| ==> cl.word(w[i])
    requires forall i :: 0 <= i < |tail| ==> !cl.word(tail[i])
    ensures WordsOnly(cl, w + tail) == w
  {
    if w == "" {
      assert w + tail == tail;
      if tail != "" {
        WordsOfWords(cl, "", tail[1..]);
        assert "" + tail[1..] == tail[1..];
      }
    } else {
      WordsOfWords(cl, w[1..], tail);
      assert (w + tail)[1..] == w[1..] + tail;
    }
  }

  lemma GoodTermIsFixed(cl: Classes, t: string)
    requires Sane(cl) && GoodTerm(cl, t)
    ensures Term(cl, t) == Some(t)
  {
    var w := t[1..|t| - 1];
    assert t[1..] == w + "\"" && t[0] == '"';
    WordsOfWords(cl, w, "\"");
    TrimKeepsWords(cl, w);
  }

  lemma {:induction false} GoodTermsAreFixed(cl: Classes, terms: seq<string>)
    requires Sane(cl) && forall i :: 0 <= i < |terms| ==> GoodTerm(cl, terms[i])
    ensures Terms(cl, terms) == terms
  {
    if terms != [] {
      GoodTermsAreFixed(cl, terms[..|terms| - 1]);
      GoodTermIsFixed(cl, terms[|terms| - 1]);
    }
  }

  /** Splitting the sanitized query on white space gives exactly its terms; each is a quoted non-empty
      run of word characters and no operator; and sanitizing again changes nothing. */
  lemma SanitizedQueryIsSafe(cl: Classes, raw: string)
    requires Sane(cl)
    ensures var query := Sanitized(cl, raw);
            && Fields(cl, query) == Terms(cl, Fields(cl, raw))
            && (forall i :: 0 <= i < |Fields(cl, query)| ==> GoodTerm(cl, Fields(cl, query)[i]))
            && Sanitized(cl, query) == query
  {
    var terms := Terms(cl, Fields(cl, raw));
    TermsAreGood(cl, Fields(cl, raw));
    FieldsOfJoin(cl, terms);
    GoodTermsAreFixed(cl, terms);
  }
}

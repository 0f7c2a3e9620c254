/** The keyword classifier of the OCR service: a document type scores the fraction of its keywords
    that occur in the lower-cased text, and the best-scoring type wins. */
module DocumentClassifier {
  import opened Text
  import Seqs

  datatype Pattern = Pattern(docType: string, keywords: seq<string>)

  /** The seven document types with their keywords, in the order the scores are built. */
  const Patterns: seq<Pattern> := [
    Pattern("invoice", ["invoice", "fatura", "factura", "bill", "nota fiscal"]),
    Pattern("bill_of_lading", ["bill of lading", "conhecimento de embarque", "bl", "b/l"]),
    Pattern("packing_list", ["packing list", "lista de empaque", "lista de embalagem"]),
    Pattern("commercial_invoice", ["commercial invoice", "fatura comercial"]),
    Pattern("certificate_of_origin", ["certificate of origin", "certificado de origem"]),
    Pattern("insurance", ["insurance", "seguro", "ap\U{00F3}lice"]),
    Pattern("license", ["license", "licen\U{00E7}a", "licencia", "autoriza\U{00E7}\U{00E3}o"])
  ]

  const Other: string := "other"

  predicate WellFormed(ps: seq<Pattern>) {
    forall i :: 0 <= i < |ps| ==> |ps[i].keywords| > 0
  }

  /** The result: the chosen type, its confidence and the positive scores in pattern order. */
  datatype Classification = Classification(documentType: string, confidence: real, allScores: seq<(string, real)>)

  /** Number of keywords occurring as substrings of `text`. */
  function Hits(text: string, keywords: seq<string>): nat {
    Seqs.Count(keywords, k => Contains(text, k))
  }

  function Score(text: string, p: Pattern): (r: real)
    requires |p.keywords| > 0
    ensures 0.0 <= r <= 1.0
    ensures r > 0.0 <==> Hits(text, p.keywords) > 0
  {
    Hits(text, p.keywords) as real / |p.keywords| as real
  }

  /** The `scores` dictionary: one entry per pattern with at least one hit, in pattern order. */
  function ScoresOf(text: string, ps: seq<Pattern>): (r: seq<(string, real)>)
    requires WellFormed(ps)
    ensures |r| <= |ps|
    ensures forall i :: 0 <= i < |r| ==> 0.0 < r[i].1 <= 1.0
    ensures r == [] <==> forall j :: 0 <= j < |ps| ==> Hits(text, ps[j].keywords) == 0
    decreases |ps|
  {
    if ps == [] then []
    else
      var rest := ScoresOf(text, ps[1..]);
      assert forall j :: 1 <= j < |ps| ==> ps[j] == ps[1..][j - 1];
      if Hits(text, ps[0].keywords) > 0 then [(ps[0].docType, Score(text, ps[0]))] + rest else rest
  }

  /** Every entry is the score of some pattern. */
  lemma {:induction false} ScoresOfSound(text: string, ps: seq<Pattern>, i: nat)
    requires WellFormed(ps) && i < |ScoresOf(text, ps)|
    ensures exists j :: 0 <= j < |ps| && ScoresOf(text, ps)[i] == (ps[j].docType, Score(text, ps[j]))
    decreases |ps|
  {
    var rest := ScoresOf(text, ps[1..]);
    if Hits(text, ps[0].keywords) > 0 && i == 0 {
      assert ScoresOf(text, ps)[0] == (ps[0].docType, Score(text, ps[0]));
    } else {
      var i' := if Hits(text, ps[0].keywords) > 0 then i - 1 else i;
      assert ScoresOf(text, ps)[i] == rest[i'];
      ScoresOfSound(text, ps[1..], i');
      var j :| 0 <= j < |ps[1..]| && rest[i'] == (ps[1..][j].docType, Score(text, ps[1..][j]));
      assert ps[1..][j] == ps[j + 1];
    }
  }

  /** Every pattern with a hit has its entry. */
  lemma {:induction false} ScoresOfComplete(text: string, ps: seq<Pattern>, j: nat)
    requires WellFormed(ps) && j < |ps| && Hits(text, ps[j].keywords) > 0
    ensures (ps[j].docType, Score(text, ps[j])) in ScoresOf(text, ps)
    decreases |ps|
  {
    if j > 0 {
      assert ps[1..][j - 1] == ps[j];
      ScoresOfComplete(text, ps[1..], j - 1);
    }
  }

  /** `i` is where Python's `max` stops: a maximal score with every earlier score strictly smaller. */
  predicate FirstMax(s: seq<(string, real)>, i: int) {
    0 <= i < |s| && (forall j :: 0 <= j < |s| ==> s[j].1 <= s[i].1) && (forall j :: 0 <= j < i ==> s[j].1 < s[i].1)
  }

  /** The index `max(scores.items(), key=...)` returns: a left-to-right scan that replaces the
      current best only on a strictly greater score. */
  function ArgMax(s: seq<(string, real)>): (i: nat)
    requires |s| > 0
    ensures FirstMax(s, i)
    decreases |s|
  {
    if |s| == 1 then 0
    else
      var k := ArgMax(s[..|s| - 1]);
      assert forall j :: 0 <= j < |s| - 1 ==> s[..|s| - 1][j] == s[j];
      if s[|s| - 1].1 > s[k].1 then |s| - 1 else k
  }

  /** The first maximum is unique, so `FirstMax` pins down the chosen entry. */
  lemma FirstMaxUnique(s: seq<(string, real)>, i: int, k: int)
    requires FirstMax(s, i) && FirstMax(s, k)
    ensures i == k
  {
    assert s[k].1 <= s[i].1 && s[i].1 <= s[k].1;
  }

  /** `classify_document` against a list of patterns. */
  function ClassifyWith(text: string, ps: seq<Pattern>): (r: Classification)
    requires WellFormed(ps)
    ensures r.allScores == ScoresOf(Lower(text), ps)
    ensures r.allScores == [] <==> r == Classification(Other, 0.0, [])
    ensures r.allScores != [] ==>
              0.0 < r.confidence <= 1.0
              && exists i :: FirstMax(r.allScores, i) && r.allScores[i] == (r.documentType, r.confidence)
  {
    var scores := ScoresOf(Lower(text), ps);
    if scores == [] then Classification(Other, 0.0, [])
    else
      var i := ArgMax(scores);
      Classification(scores[i].0, scores[i].1, scores)
  }

  lemma PatternsWellFormed()
    ensures WellFormed(Patterns)
  {
  }

  /** `classify_document` with the seven built-in patterns. */
  function Classify(text: string): Classification {
    PatternsWellFormed();
    ClassifyWith(text, Patterns)
  }

  /** The returned type is the type of one of the patterns, or `other`. */
  lemma {:induction false} ClassifyKnownType(text: string, ps: seq<Pattern>)
    requires WellFormed(ps)
    ensures var t := ClassifyWith(text, ps).documentType;
            t == Other || exists j :: 0 <= j < |ps| && ps[j].docType == t
  {
    var r := ClassifyWith(text, ps);
    if r.allScores != [] {
      var i :| FirstMax(r.allScores, i) && r.allScores[i] == (r.documentType, r.confidence);
      ScoresOfSound(Lower(text), ps, i);
    }
  }

  /** Classification is case-insensitive. */
  lemma ClassifyCaseInsensitive(text: string, ps: seq<Pattern>)
    requires WellFormed(ps)
    ensures ClassifyWith(text, ps) == ClassifyWith(Lower(text), ps)
  {
    LowerIdempotent(text);
  }

  /** A pattern scores zero exactly when none of its keywords occurs. */
  lemma NoHitsIff(t: string, p: Pattern)
    ensures Hits(t, p.keywords) == 0 <==> forall k :: 0 <= k < |p.keywords| ==> !Contains(t, p.keywords[k])
  {
    Seqs.CountZero(p.keywords, k => Contains(t, k));
  }

  /** The result is `other` with confidence 0 exactly when no keyword of any pattern occurs in
      the lower-cased text. */
  lemma ClassifyOtherIff(text: string, ps: seq<Pattern>)
    requires WellFormed(ps)
    ensures ClassifyWith(text, ps) == Classification(Other, 0.0, []) <==>
              forall j, k :: 0 <= j < |ps| && 0 <= k < |ps[j].keywords| ==> !Contains(Lower(text), ps[j].keywords[k])
  {
    var t := Lower(text);
    forall j | 0 <= j < |ps|
      ensures Hits(t, ps[j].keywords) == 0 <==> forall k :: 0 <= k < |ps[j].keywords| ==> !Contains(t, ps[j].keywords[k])
    {
      NoHitsIff(t, ps[j]);
    }
  }

  /** No pattern scores higher than the chosen one. */
  lemma ClassifyBest(text: string, ps: seq<Pattern>, j: nat)
    requires WellFormed(ps) && j < |ps| && ClassifyWith(text, ps).allScores != []
    ensures Score(Lower(text), ps[j]) <= ClassifyWith(text, ps).confidence
  {
    var r := ClassifyWith(text, ps);
    var t := Lower(text);
    if Hits(t, ps[j].keywords) > 0 {
      ScoresOfComplete(t, ps, j);
      var i :| FirstMax(r.allScores, i) && r.allScores[i] == (r.documentType, r.confidence);
      var m :| 0 <= m < |r.allScores| && r.allScores[m] == (ps[j].docType, Score(t, ps[j]));
    }
  }

  /** With the built-in patterns the type is one of the seven keys or `other`. */
  lemma BuiltInTypes(text: string)
    ensures Classify(text).documentType in {"invoice", "bill_of_lading", "packing_list", "commercial_invoice",
                                            "certificate_of_origin", "insurance", "license", Other}
  {
    PatternsWellFormed();
    ClassifyKnownType(text, Patterns);
    var t := Classify(text).documentType;
    if t != Other {
      var j :| 0 <= j < |Patterns| && Patterns[j].docType == t;
      assert j in {0, 1, 2, 3, 4, 5, 6};
    }
  }
}

/**
 * The rule-based `/classify` endpoint (backend/index.js:243-272): keyword
 * matching on the lower-cased text picks a category in a fixed priority, the
 * category picks a recommendation, and the quantities give an eco-score and a
 * suggestion. Nothing is stored.
 */
module Classifier {
  import opened Common
  import opened Scoring

  datatype Category = Plastic | Organic | Electronic | Other

  datatype Classification = Classification(
    category: Category,
    recommendation: string,
    ecoScore: int,
    suggestion: string)

  const REDUCE_SUGGESTION: string := "Coba kurangi timbulan sampah minggu depan"
  const GOOD_JOB_SUGGESTION: string := "Good job! Timbulan sampah terkendali"

  /** ASCII lower-casing of one character. */
  function LowerChar(c: char): char
  {
    if 'A' <= c <= 'Z' then (c as int + 32) as char else c
  }

  /**
   * `toLowerCase`, restricted to ASCII letters: no capital is left, each capital
   * becomes the small letter at the same place in the alphabet, and every other
   * character is kept.
   */
  function Lower(s: string): (r: string)
    ensures |r| == |s|
    ensures forall i :: 0 <= i < |r| ==> !('A' <= r[i] <= 'Z')
    ensures forall i :: 0 <= i < |s| && 'A' <= s[i] <= 'Z' ==>
      'a' <= r[i] <= 'z' && r[i] as int - 'a' as int == s[i] as int - 'A' as int
    ensures forall i :: 0 <= i < |s| && !('A' <= s[i] <= 'Z') ==> r[i] == s[i]
  {
    seq(|s|, i requires 0 <= i < |s| => LowerChar(s[i]))
  }

  /** Lower-casing twice is lower-casing once. */
  lemma LowerIdempotent(s: string)
    ensures Lower(Lower(s)) == Lower(s)
  {
  }

  /** `w` occurs in `s` starting at position `i`. */
  predicate OccursAt(s: string, w: string, i: int)
  {
    0 <= i && i + |w| <= |s| && s[i..i + |w|] == w
  }

  /** `s.includes(w)`, by scanning the start positions left to right. */
  predicate Contains(s: string, w: string)
    decreases |s|
  {
    |w| <= |s| && (s[..|w|] == w || (|s| > 0 && Contains(s[1..], w)))
  }

  /** The scan finds `w` exactly when `w` occurs somewhere in `s`. */
  lemma {:induction false} ContainsIffOccurs(s: string, w: string)
    ensures Contains(s, w) <==> exists i :: OccursAt(s, w, i)
    decreases |s|
  {
    if |w| <= |s| && s[..|w|] != w && |s| > 0 {
      ContainsIffOccurs(s[1..], w);
      if exists i :: OccursAt(s[1..], w, i) {
        var i :| OccursAt(s[1..], w, i);
        assert s[i + 1..i + 1 + |w|] == s[1..][i..i + |w|];
        assert OccursAt(s, w, i + 1);
      }
      if exists i :: OccursAt(s, w, i) {
        var i :| OccursAt(s, w, i);
        assert i != 0;
        assert s[1..][i - 1..i - 1 + |w|] == s[i..i + |w|];
        assert OccursAt(s[1..], w, i - 1);
      }
    } else if |w| <= |s| && s[..|w|] == w {
      assert OccursAt(s, w, 0);
    }
  }

  /** The keyword group of each category, as the source's if/else chain tests them. */
  function Keywords(c: Category): seq<string>
  {
    match c
    case Plastic => ["plast", "botol", "kemasan"]
    case Organic => ["organ", "sisa", "makanan"]
    case Electronic => ["elect", "baterai", "hp"]
    case Other => []
  }

  /** The position of a category in the matching priority; `Other` comes last. */
  function Rank(c: Category): nat
  {
    match c
    case Plastic => 0
    case Organic => 1
    case Electronic => 2
    case Other => 3
  }

  /** Some keyword of category `c` occurs somewhere in `text`. */
  ghost predicate Mentions(text: string, c: Category)
  {
    exists k, i :: 0 <= k < |Keywords(c)| && OccursAt(text, Keywords(c)[k], i)
  }

  /** The category: the first keyword group found, plastic before organic before electronic. */
  function CategoryOf(text: string): Category
  {
    var t := Lower(text);
    if Contains(t, "plast") || Contains(t, "botol") || Contains(t, "kemasan") then Plastic
    else if Contains(t, "organ") || Contains(t, "sisa") || Contains(t, "makanan") then Organic
    else if Contains(t, "elect") || Contains(t, "baterai") || Contains(t, "hp") then Electronic
    else Other
  }

  /** A category is mentioned exactly when one of its keywords passes the `includes` scan. */
  lemma MentionsIffContains(text: string, c: Category)
    ensures Mentions(text, c) <==> exists k :: 0 <= k < |Keywords(c)| && Contains(text, Keywords(c)[k])
  {
    forall k | 0 <= k < |Keywords(c)| {
      ContainsIffOccurs(text, Keywords(c)[k]);
    }
  }

  /**
   * The category is the highest-priority group mentioned in the lower-cased text:
   * it is mentioned, no group ranked before it is, and `Other` means no group is.
   */
  lemma CategoryIsFirstMentioned(text: string)
    ensures CategoryOf(text) != Other ==> Mentions(Lower(text), CategoryOf(text))
    ensures forall c :: Rank(c) < Rank(CategoryOf(text)) ==> !Mentions(Lower(text), c)
    ensures CategoryOf(text) == Other <==> forall c :: c != Other ==> !Mentions(Lower(text), c)
  {
    var t := Lower(text);
    MentionsIffContains(t, Plastic);
    MentionsIffContains(t, Organic);
    MentionsIffContains(t, Electronic);
    MentionsIffContains(t, Other);
    assert Keywords(Plastic)[0] == "plast" && Keywords(Plastic)[1] == "botol" && Keywords(Plastic)[2] == "kemasan";
    assert Keywords(Organic)[0] == "organ" && Keywords(Organic)[1] == "sisa" && Keywords(Organic)[2] == "makanan";
    assert Keywords(Electronic)[0] == "elect" && Keywords(Electronic)[1] == "baterai" && Keywords(Electronic)[2] == "hp";
  }

  /** Classification ignores the case of ASCII letters. */
  lemma CategoryIgnoresCase(a: string, b: string)
    requires Lower(a) == Lower(b)
    ensures CategoryOf(a) == CategoryOf(b)
  {
  }

  /** The fixed advice for each category. */
  function Recommendation(c: Category): string
  {
    match c
    case Plastic => "Kurangi penggunaan plastik sekali pakai. Gunakan tas belanja sendiri dan botol minum yang bisa dipakai ulang."
    case Organic => "Sampah organik bisa dijadikan kompos. Pisahkan dari sampah lain dan olah menjadi pupuk."
    case Electronic => "Sampah elektronik harus dibuang ke tempat khusus. Jangan campur dengan sampah biasa."
    case Other => "Usahakan untuk memilah sampah dengan benar"
  }

  /** `organic + plastic + electronic + other`. */
  function TotalWaste(q: Quantities): int
  {
    q.organic + q.plastic + q.electronic + q.other
  }

  /** The penalty `3p + 5e + 2x + 0.5o` as an exact real. */
  function Penalty(q: Quantities): real
  {
    3.0 * q.plastic as real + 5.0 * q.electronic as real + 2.0 * q.other as real + 0.5 * q.organic as real
  }

  /**
   * The eco-score in integer arithmetic: `d` is twice `100 - penalty`, a whole
   * number, so rounding `d / 2` up at halves is `(d + 1) div 2`.
   */
  function EcoScore(q: Quantities): (score: int)
    ensures score >= 0
  {
    var d := 200 - (6 * q.plastic + 10 * q.electronic + 4 * q.other + q.organic);
    if d <= 0 then 0 else (d + 1) / 2
  }

  /** The integer form equals `round(max(0, 100 - penalty))`. */
  lemma EcoScoreIsRoundedClampedPenalty(q: Quantities)
    ensures EcoScore(q) == RoundHalfUp(MaxReal(0.0, 100.0 - Penalty(q)))
  {
  }

  /** For non-negative quantities the eco-score lies in [0, 100]. */
  lemma EcoScoreInRange(q: Quantities)
    requires q.organic >= 0 && q.plastic >= 0 && q.electronic >= 0 && q.other >= 0
    ensures 0 <= EcoScore(q) <= 100
  {
  }

  /** More of any category never raises the eco-score. */
  lemma EcoScoreAntitone(q: Quantities, q': Quantities)
    requires q.organic <= q'.organic && q.plastic <= q'.plastic
    requires q.electronic <= q'.electronic && q.other <= q'.other
    ensures EcoScore(q') <= EcoScore(q)
  {
  }

  /** The "reduce" advice when more than 10 units were reported in total, praise otherwise. */
  function Suggestion(q: Quantities): (s: string)
    ensures s == REDUCE_SUGGESTION <==> TotalWaste(q) > 10
    ensures s == GOOD_JOB_SUGGESTION <==> TotalWaste(q) <= 10
  {
    if TotalWaste(q) > 10 then REDUCE_SUGGESTION else GOOD_JOB_SUGGESTION
  }

  /** The `/classify` response for a text and the four quantities (missing ones given as 0). */
  function Classify(text: string, q: Quantities): (r: Classification)
    ensures r.category == CategoryOf(text) && r.ecoScore == EcoScore(q) && r.suggestion == Suggestion(q)
    ensures r.recommendation == Recommendation(r.category)
    ensures r.category == Other <==> forall c :: c != Other ==> !Mentions(Lower(text), c)
    ensures q.organic >= 0 && q.plastic >= 0 && q.electronic >= 0 && q.other >= 0 ==> 0 <= r.ecoScore <= 100
    ensures r.suggestion == REDUCE_SUGGESTION <==> TotalWaste(q) > 10
  {
    var c := CategoryOf(text);
    CategoryIsFirstMentioned(text);
    Classification(c, Recommendation(c), EcoScore(q), Suggestion(q))
  }

  /** "botol plastik bekas" is classified as plastic. */
  lemma ClassifyBottleExample()
    ensures Classify("botol plastik bekas", NO_WASTE).category == Plastic
  {
    var t := Lower("botol plastik bekas");
    assert t[..5] == "botol";
  }

  /** 20 kg organic waste alone: round(max(0, 100 - 10)) = 90. */
  lemma EcoScoreExample()
    ensures EcoScore(Quantities(20, 0, 0, 0)) == 90
  {
  }
}
